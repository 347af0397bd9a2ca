/** What the store promises whatever the publishers do and wherever they stop. */
module StoreSafety {
  import opened Store
  import opened Wrappers

  // ----- the invariant -----

  predicate Owns(pc: Pc, h: Digest) { pc.Writing? && pc.job.hash == h }

  predicate HasPath(pc: Pc) { pc.TempOpening? || pc.TempWriting? }

  /** The object named `h` holds exactly the packet it was created for. */
  predicate Complete(s: State, h: Digest) {
    h in s.objects && h in s.packets && s.objects[h] == s.packets[h]
  }

  ghost predicate JobFits(codec: Codec, job: Job) {
    Encoded(codec, job.r) == Some(job.packet) && job.hash == codec.digest(job.packet)
  }

  /** One publisher agrees with the files. */
  ghost predicate Fits(codec: Codec, s: State, p: Publisher)
    requires p in s.publishers
  {
    var pc := s.publishers[p];
    pc.Stopped? || (
      && JobFits(codec, pc.job)
      && (pc.Writing? ==>
        && pc.job.hash in s.objects && pc.job.hash in s.packets && s.packets[pc.job.hash] == pc.job.packet
        && pc.written <= |pc.job.packet| && s.objects[pc.job.hash] == pc.job.packet[..pc.written])
      && (pc.Checking? ==> pc.job.hash in s.objects && pc.seen <= s.objects[pc.job.hash])
      && (pc.Naming? || HasPath(pc) ==> Complete(s, pc.job.hash) && s.objects[pc.job.hash] == pc.job.packet)
      && (HasPath(pc) ==> pc.path in s.used && pc.path !in s.published)
      && (pc.TempWriting? ==>
        && pc.written <= |codec.refToJson(pc.job.hash)|
        && pc.temp in s.temps && s.temps[pc.temp] == codec.refToJson(pc.job.hash)[..pc.written]))
  }

  /** Every object is a prefix of a packet that hashes to its name. */
  ghost predicate ObjectFits(codec: Codec, s: State, h: Digest)
    requires h in s.objects
  {
    h in s.packets && s.objects[h] <= s.packets[h] && codec.digest(s.packets[h]) == h
  }

  /** Every published reference names a complete object that encodes the published result. */
  ghost predicate PublishedFits(codec: Codec, s: State, path: Id)
    requires path in s.published
  {
    var r := s.published[path];
    && path in s.used && path in s.runs
    && Encoded(codec, r).Some?
    && var h := codec.digest(Encoded(codec, r).value);
       s.runs[path] == codec.refToJson(h) && Complete(s, h) && s.objects[h] == Encoded(codec, r).value
  }

  /** Objects have one writer each; names in flight are distinct. */
  ghost predicate Apart(s: State) {
    forall p, q {:trigger s.publishers[p], s.publishers[q]} :: p in s.publishers && q in s.publishers && p != q ==>
      var a, b := s.publishers[p], s.publishers[q];
      && (a.Writing? && b.Writing? ==> a.job.hash != b.job.hash)
      && (HasPath(a) && HasPath(b) ==> a.path != b.path)
      && (a.TempWriting? && b.TempWriting? ==> a.temp != b.temp)
  }

  ghost predicate Inv(codec: Codec, s: State) {
    && Apart(s)
    && (forall p :: p in s.publishers ==> Fits(codec, s, p))
    && (forall h :: h in s.objects ==> ObjectFits(codec, s, h))
    && (forall path :: path in s.published ==> PublishedFits(codec, s, path))
  }

  // ----- one step -----

  /** Objects stay, or one is created, or the one that `p` writes grows. */
  ghost predicate ObjectsGrow(s: State, p: Publisher, t: State) {
    || (t.objects == s.objects && t.packets == s.packets)
    || (&& p in s.publishers && !s.publishers[p].Stopped?
        && var h := s.publishers[p].job.hash;
           && h in t.objects && t.objects == s.objects[h := t.objects[h]]
           && h in t.packets && t.objects[h] <= t.packets[h]
           && if h in s.objects
              then s.publishers[p].Writing? && t.packets == s.packets && s.objects[h] < t.objects[h] && !Complete(s, h)
              else t.packets == s.packets[h := t.packets[h]])
  }

  /** Temporary files stay, except for the one that `p` uses. */
  ghost predicate TempsStay(s: State, p: Publisher, t: State) {
    forall k :: k in s.temps && !(p in s.publishers && s.publishers[p].TempWriting? && s.publishers[p].temp == k) ==>
      k in t.temps && t.temps[k] == s.temps[k]
  }

  /** References stay, except that `p` may publish under the name it generated. */
  ghost predicate ReferencesGrow(s: State, p: Publisher, t: State) {
    || (t.runs == s.runs && t.published == s.published)
    || (p in s.publishers && s.publishers[p].TempWriting?
        && var path := s.publishers[p].path;
           && path in t.runs && t.runs == s.runs[path := t.runs[path]]
           && t.published == s.published[path := s.publishers[p].job.r])
  }

  /** What a step of `p` can change for everybody else. */
  ghost predicate Effect(s: State, p: Publisher, t: State) {
    && p in t.publishers && t.publishers == s.publishers[p := t.publishers[p]]
    && ObjectsGrow(s, p, t) && TempsStay(s, p, t) && ReferencesGrow(s, p, t)
    && s.used <= t.used
  }

  /** The check at the end of a concurrent read: a digest match proves the object complete. */
  lemma MatchMeansComplete(codec: Codec, s: State, packet: Bytes, seen: Bytes)
    requires Sound(codec)
    requires var h := codec.digest(packet);
      h in s.objects && ObjectFits(codec, s, h) && seen <= s.objects[h] && codec.digest(seen) == h
    ensures var h := codec.digest(packet); Complete(s, h) && s.objects[h] == packet
  {
    var h := codec.digest(packet);
    assert seen == packet;
    assert codec.digest(s.packets[h]) == codec.digest(packet);
  }

  /** What the step leaves its publisher and whatever it adds fit, and locks taken are new. */
  ghost predicate Mine(codec: Codec, s: State, p: Publisher, t: State) {
    && p in t.publishers && Fits(codec, t, p)
    && (forall h :: h in t.objects && h !in s.objects ==> ObjectFits(codec, t, h))
    && (forall path :: path in t.published && path !in s.published ==> PublishedFits(codec, t, path))
    && var pc' := t.publishers[p];
       && (pc'.Writing? ==> (p in s.publishers && Owns(s.publishers[p], pc'.job.hash)) || pc'.job.hash !in s.objects)
       && (HasPath(pc') ==>
             (p in s.publishers && HasPath(s.publishers[p]) && s.publishers[p].path == pc'.path) || pc'.path !in s.used)
       && (pc'.TempWriting? ==>
             || (p in s.publishers && s.publishers[p].TempWriting? && s.publishers[p].temp == pc'.temp)
             || pc'.temp !in s.temps)
  }

  /** A step keeps its publisher's own part and lets nobody else see more than `Effect`. */
  ghost predicate Good(codec: Codec, s: State, p: Publisher, t: State) { Effect(s, p, t) && Mine(codec, s, p, t) }

  lemma CreateNewEffect(codec: Codec, s: State, p: Publisher, t: State)
    requires p in s.publishers && Fits(codec, s, p) && CreateNewStep(s, p) == Some(t)
    ensures Effect(s, p, t)
  {
  }

  lemma CreateNewGood(codec: Codec, s: State, p: Publisher, t: State)
    requires p in s.publishers && Fits(codec, s, p) && CreateNewStep(s, p) == Some(t)
    ensures Good(codec, s, p, t)
  {
    CreateNewEffect(codec, s, p, t);
    assert t.runs == s.runs && t.published == s.published && t.temps == s.temps && t.used == s.used;
  }

  lemma WriteObjectEffect(codec: Codec, s: State, p: Publisher, count: nat, t: State)
    requires p in s.publishers && Fits(codec, s, p) && WriteObjectStep(s, p, count) == Some(t)
    ensures Effect(s, p, t)
  {
  }

  lemma WriteObjectGood(codec: Codec, s: State, p: Publisher, count: nat, t: State)
    requires p in s.publishers && Fits(codec, s, p) && WriteObjectStep(s, p, count) == Some(t)
    ensures Good(codec, s, p, t)
  {
    WriteObjectEffect(codec, s, p, count, t);
    assert t.runs == s.runs && t.published == s.published && t.temps == s.temps && t.used == s.used;
  }

  /** A step that only moves the publisher. */
  lemma GotoEffect(s: State, p: Publisher, pc: Pc)
    ensures Effect(s, p, Goto(s, p, pc))
  {
  }

  lemma ReadObjectEffect(codec: Codec, s: State, p: Publisher, count: nat, t: State)
    requires p in s.publishers && ReadObjectStep(codec, s, p, count) == Some(t)
    ensures Effect(s, p, t) && t == s.(publishers := t.publishers)
    ensures !t.publishers[p].Writing? && !HasPath(t.publishers[p])
  {
    GotoEffect(s, p, t.publishers[p]);
    assert t == Goto(s, p, t.publishers[p]);
  }

  lemma ReadObjectGood(codec: Codec, s: State, p: Publisher, count: nat, t: State)
    requires Sound(codec) && p in s.publishers && Fits(codec, s, p) && ReadObjectStep(codec, s, p, count) == Some(t)
    requires forall h :: h in s.objects ==> ObjectFits(codec, s, h)
    ensures Good(codec, s, p, t)
  {
    var pc := s.publishers[p];
    ReadObjectEffect(codec, s, p, count, t);
    if t.publishers[p].Naming? {
      assert ObjectFits(codec, s, pc.job.hash);
      MatchMeansComplete(codec, s, pc.job.packet, pc.seen);
    }
  }

  lemma TempEffect(codec: Codec, s: State, a: Action, t: State)
    requires (a.GenerateName? || a.CreateTemp? || a.WriteTemp?) && a.p in s.publishers && Fits(codec, s, a.p)
    requires TempStep(codec, s, a) == Some(t)
    ensures Effect(s, a.p, t)
  {
  }

  lemma TempGood(codec: Codec, s: State, a: Action, t: State)
    requires (a.GenerateName? || a.CreateTemp? || a.WriteTemp?) && a.p in s.publishers && Fits(codec, s, a.p)
    requires forall path :: path in s.published ==> path in s.used
    requires TempStep(codec, s, a) == Some(t)
    ensures Good(codec, s, a.p, t)
  {
    TempEffect(codec, s, a, t);
    assert t.objects == s.objects && t.packets == s.packets && t.runs == s.runs && t.published == s.published;
  }

  lemma RenameGood(codec: Codec, s: State, p: Publisher, t: State)
    requires p in s.publishers && Fits(codec, s, p) && RenameStep(codec, s, p) == Some(t)
    ensures Good(codec, s, p, t)
  {
  }

  lemma PersistGood(codec: Codec, s: State, p: Publisher, r: SuiteResult, t: State)
    requires PersistStep(codec, s, p, r) == Some(t)
    ensures Good(codec, s, p, t)
  {
    assert t == s.(publishers := t.publishers);
    if Encoded(codec, r).Some? {
      assert t.publishers[p].Creating? && JobFits(codec, t.publishers[p].job);
    }
  }

  lemma StopGood(codec: Codec, s: State, p: Publisher, removed: bool, t: State)
    requires p in s.publishers && Fits(codec, s, p) && StopStep(s, p, removed) == Some(t)
    ensures Good(codec, s, p, t)
  {
  }

  lemma StepGood(codec: Codec, s: State, a: Action, t: State)
    requires Sound(codec) && Step(codec, s, a) == Some(t)
    requires a.p in s.publishers ==> Fits(codec, s, a.p)
    requires forall h :: h in s.objects ==> ObjectFits(codec, s, h)
    requires forall path :: path in s.published ==> path in s.used
    ensures Good(codec, s, a.p, t)
  {
    match a
    case Persist(p, r) => PersistGood(codec, s, p, r, t);
    case CreateNew(p) => CreateNewGood(codec, s, p, t);
    case WriteObject(p, count) => WriteObjectGood(codec, s, p, count, t);
    case ReadObject(p, count) => ReadObjectGood(codec, s, p, count, t);
    case GenerateName(_, _) => TempGood(codec, s, a, t);
    case CreateTemp(_, _) => TempGood(codec, s, a, t);
    case WriteTemp(_, _) => TempGood(codec, s, a, t);
    case Rename(p) => RenameGood(codec, s, p, t);
    case Stop(p, removed) => StopGood(codec, s, p, removed, t);
  }

  lemma PublishedAreUsed(codec: Codec, s: State)
    requires Inv(codec, s)
    ensures forall path :: path in s.published ==> path in s.used
  {
    assert forall path :: path in s.published ==> PublishedFits(codec, s, path);
  }

  // ----- everybody else -----

  /** A complete object never changes, and its packet is fixed for good. */
  lemma CompleteStays(codec: Codec, s: State, p: Publisher, t: State, h: Digest)
    requires Effect(s, p, t) && Complete(s, h)
    ensures Complete(t, h) && t.objects[h] == s.objects[h] && t.packets[h] == s.packets[h]
  {
  }

  lemma ObjectsStay(codec: Codec, s: State, p: Publisher, t: State, h: Digest)
    requires Effect(s, p, t) && h in s.objects && ObjectFits(codec, s, h)
    ensures h in t.objects && s.objects[h] <= t.objects[h] && ObjectFits(codec, t, h)
  {
  }

  lemma OthersFit(codec: Codec, s: State, p: Publisher, t: State, q: Publisher)
    requires Inv(codec, s) && Good(codec, s, p, t) && q in t.publishers && q != p
    ensures Fits(codec, t, q)
  {
    var pc := s.publishers[q];
    assert t.publishers[q] == pc && Fits(codec, s, q);
    if !pc.Stopped? && pc.job.hash in s.objects {
      ObjectsStay(codec, s, p, t, pc.job.hash);
      if Complete(s, pc.job.hash) { CompleteStays(codec, s, p, t, pc.job.hash); }
    }
    if pc.Writing? {
      assert p in s.publishers && s.publishers[p].Writing? ==> s.publishers[p].job.hash != pc.job.hash;
      assert t.objects[pc.job.hash] == s.objects[pc.job.hash] && t.packets[pc.job.hash] == s.packets[pc.job.hash];
    }
    if pc.TempWriting? {
      assert p in s.publishers && s.publishers[p].TempWriting? ==> s.publishers[p].temp != pc.temp;
      assert pc.temp in t.temps && t.temps[pc.temp] == s.temps[pc.temp];
    }
    if HasPath(pc) {
      assert p in s.publishers && HasPath(s.publishers[p]) ==> s.publishers[p].path != pc.path;
    }
  }

  lemma PublishedStays(codec: Codec, s: State, p: Publisher, t: State, path: Id)
    requires Effect(s, p, t) && path in s.published && PublishedFits(codec, s, path)
    requires p in s.publishers ==> Fits(codec, s, p)
    ensures path in t.published && t.published[path] == s.published[path] && PublishedFits(codec, t, path)
  {
    var h := codec.digest(Encoded(codec, s.published[path]).value);
    CompleteStays(codec, s, p, t, h);
  }

  lemma StaysApart(codec: Codec, s: State, p: Publisher, t: State)
    requires Inv(codec, s) && Good(codec, s, p, t)
    ensures Apart(t)
  {
    forall q | q in t.publishers && q != p
      ensures var a, b := t.publishers[p], t.publishers[q];
        && (a.Writing? && b.Writing? ==> a.job.hash != b.job.hash)
        && (HasPath(a) && HasPath(b) ==> a.path != b.path)
        && (a.TempWriting? && b.TempWriting? ==> a.temp != b.temp)
    {
      assert t.publishers[q] == s.publishers[q] && Fits(codec, s, q);
    }
  }

  lemma StepKeeps(codec: Codec, s: State, a: Action, t: State)
    requires Sound(codec) && Inv(codec, s) && Step(codec, s, a) == Some(t)
    ensures Inv(codec, t)
  {
    var p := a.p;
    assert p in s.publishers ==> Fits(codec, s, p);
    PublishedAreUsed(codec, s);
    StepGood(codec, s, a, t);
    StaysApart(codec, s, p, t);
    forall q | q in t.publishers ensures Fits(codec, t, q) {
      if q != p { OthersFit(codec, s, p, t, q); }
    }
    forall h | h in t.objects ensures ObjectFits(codec, t, h) {
      if h in s.objects { ObjectsStay(codec, s, p, t, h); }
    }
    forall path | path in t.published ensures PublishedFits(codec, t, path) {
      if path in s.published { PublishedStays(codec, s, p, t, path); }
    }
  }

  lemma {:induction false} ReachableInv(codec: Codec, states: seq<State>, i: nat)
    requires Sound(codec) && Run(codec, states) && i < |states|
    ensures Inv(codec, states[i])
  {
    if i > 0 {
      ReachableInv(codec, states, i - 1);
      assert NextAt(codec, states, i);
      var a :| Step(codec, states[i - 1], a) == Some(states[i]);
      StepKeeps(codec, states[i - 1], a, states[i]);
    }
  }
}
