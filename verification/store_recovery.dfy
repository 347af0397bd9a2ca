/** When a result can still be published: from every reachable state, exactly if its object was
    not left behind half written (src/storage.rs lines 226-265). */
module StoreRecovery {
  import opened Store
  import opened StoreSafety
  import opened StoreTheorems

  function Final(states: seq<State>): State
    requires |states| > 0
  {
    states[|states| - 1]
  }

  /** `more` is a run that goes on from `states`. */
  ghost predicate Continues(codec: Codec, states: seq<State>, more: seq<State>) {
    states <= more && Run(codec, more)
  }

  lemma Do(codec: Codec, states: seq<State>, a: Action) returns (more: seq<State>)
    requires Run(codec, states) && Step(codec, Final(states), a).Some?
    ensures Continues(codec, states, more) && more == states + [Step(codec, Final(states), a).value]
  {
    more := states + [Step(codec, Final(states), a).value];
    forall i | 0 < i < |more| ensures NextAt(codec, more, i) {
      if i < |states| { assert NextAt(codec, states, i); }
    }
  }

  /** A number that is not in use. */
  lemma {:induction false} Fresh(s: set<nat>) returns (n: nat)
    ensures forall x :: x in s ==> x < n
    decreases |s|
  {
    if s == {} {
      n := 0;
    } else {
      var x :| x in s;
      var m := Fresh(s - {x});
      n := if m > x then m else x + 1;
      assert forall y :: y in s ==> y == x || y in s - {x};
    }
  }

  /** Publisher `p` is at `pc`. */
  predicate At(s: State, p: Publisher, pc: Pc) { p in s.publishers && s.publishers[p] == pc }

  // ----- from the object to the reference -----

  /** Publisher `p` has the whole reference in its temporary file. */
  ghost predicate ReadyToRename(codec: Codec, s: State, p: Publisher, job: Job, path: Id) {
    exists temp :: At(s, p, TempWriting(job, path, temp, |codec.refToJson(job.hash)|)) && temp in s.temps
  }

  lemma NameReference(codec: Codec, states: seq<State>, p: Publisher, job: Job) returns (more: seq<State>, path: Id)
    requires Run(codec, states) && At(Final(states), p, Naming(job))
    ensures Continues(codec, states, more) && At(Final(more), p, TempOpening(job, path)) && path !in Final(states).used
  {
    path := Fresh(Final(states).used);
    more := Do(codec, states, GenerateName(p, path));
  }

  lemma WriteReference(codec: Codec, states: seq<State>, p: Publisher, job: Job, path: Id) returns (more: seq<State>)
    requires Run(codec, states) && At(Final(states), p, TempOpening(job, path))
    ensures Continues(codec, states, more) && ReadyToRename(codec, Final(more), p, job, path)
  {
    var temp := Fresh(Final(states).temps.Keys);
    more := Do(codec, states, CreateTemp(p, temp));
    assert At(Final(more), p, TempWriting(job, path, temp, 0));
    if codec.refToJson(job.hash) != [] {
      more := Do(codec, more, WriteTemp(p, |codec.refToJson(job.hash)|));
    }
    assert At(Final(more), p, TempWriting(job, path, temp, |codec.refToJson(job.hash)|)) && temp in Final(more).temps;
  }

  /** `r` has been published under `path`. */
  predicate PublishedAs(s: State, path: Id, r: SuiteResult) { path in s.published && s.published[path] == r }

  lemma PublishReference(codec: Codec, states: seq<State>, p: Publisher, job: Job) returns (more: seq<State>, path: Id)
    requires Run(codec, states) && At(Final(states), p, Naming(job))
    ensures Continues(codec, states, more) && PublishedAs(Final(more), path, job.r) && path !in Final(states).used
  {
    more, path := NameReference(codec, states, p, job);
    more := WriteReference(codec, more, p, job, path);
    more := Do(codec, more, Rename(p));
  }

  // ----- from the result to the object -----

  function JobOf(codec: Codec, r: SuiteResult): Job
    requires Encoded(codec, r).Some?
  {
    var packet := Encoded(codec, r).value;
    Job(r, packet, codec.digest(packet))
  }

  lemma BeginPublishing(codec: Codec, states: seq<State>, r: SuiteResult) returns (more: seq<State>, p: Publisher)
    requires Run(codec, states) && Encoded(codec, r).Some?
    ensures Continues(codec, states, more) && At(Final(more), p, Creating(JobOf(codec, r)))
    ensures Final(more) == Final(states).(publishers := Final(more).publishers)
  {
    p := Fresh(Final(states).publishers.Keys);
    more := Do(codec, states, Persist(p, r));
  }

  lemma CreateAbsentObject(codec: Codec, states: seq<State>, r: SuiteResult) returns (more: seq<State>, p: Publisher)
    requires Run(codec, states) && Encoded(codec, r).Some? && JobOf(codec, r).hash !in Final(states).objects
    ensures Continues(codec, states, more) && At(Final(more), p, Writing(JobOf(codec, r), 0))
  {
    more, p := BeginPublishing(codec, states, r);
    more := Do(codec, more, CreateNew(p));
  }

  /** The object is absent: a new publisher creates it and writes it in one go. */
  lemma WriteAbsentObject(codec: Codec, states: seq<State>, r: SuiteResult) returns (more: seq<State>, p: Publisher)
    requires Sound(codec) && Run(codec, states) && Encoded(codec, r).Some? && JobOf(codec, r).hash !in Final(states).objects
    ensures Continues(codec, states, more) && At(Final(more), p, Naming(JobOf(codec, r)))
  {
    var job := JobOf(codec, r);
    assert IsGzip(job.packet);
    more, p := CreateAbsentObject(codec, states, r);
    more := Do(codec, more, WriteObject(p, |job.packet|));
    assert At(Final(more), p, Writing(job, |job.packet|));
    more := Do(codec, more, WriteObject(p, 0));
  }

  lemma CompleteHoldsPacket(codec: Codec, states: seq<State>, r: SuiteResult)
    requires Sound(codec) && Run(codec, states) && Encoded(codec, r).Some? && Complete(Final(states), JobOf(codec, r).hash)
    ensures Final(states).objects[JobOf(codec, r).hash] == JobOf(codec, r).packet
  {
    var job := JobOf(codec, r);
    ReachableInv(codec, states, |states| - 1);
    assert ObjectFits(codec, Final(states), job.hash);
    assert codec.digest(Final(states).packets[job.hash]) == codec.digest(job.packet);
  }

  /** The object is complete: a new publisher reads it and its digest matches. */
  lemma CheckCompleteObject(codec: Codec, states: seq<State>, r: SuiteResult) returns (more: seq<State>, p: Publisher)
    requires Sound(codec) && Run(codec, states) && Encoded(codec, r).Some? && Complete(Final(states), JobOf(codec, r).hash)
    ensures Continues(codec, states, more) && At(Final(more), p, Naming(JobOf(codec, r)))
  {
    var job := JobOf(codec, r);
    assert IsGzip(job.packet);
    CompleteHoldsPacket(codec, states, r);
    more, p := BeginPublishing(codec, states, r);
    more := Do(codec, more, CreateNew(p));
    assert At(Final(more), p, Checking(job, []));
    more := Do(codec, more, ReadObject(p, |job.packet|));
    assert job.packet[..|job.packet|] == job.packet;
    assert At(Final(more), p, Checking(job, job.packet));
    more := Do(codec, more, ReadObject(p, 0));
  }

  /** The object is being written: its writer writes the rest. */
  lemma WriterFinishes(codec: Codec, states: seq<State>, q: Publisher, h: Digest) returns (more: seq<State>)
    requires Sound(codec) && Run(codec, states) && q in Final(states).publishers && Owns(Final(states).publishers[q], h)
    requires !Complete(Final(states), h)
    ensures Continues(codec, states, more) && Complete(Final(more), h)
  {
    var s := Final(states);
    var pc := s.publishers[q];
    ReachableFits(codec, states, |states| - 1, q);
    assert pc.job.packet[..|pc.job.packet|] == pc.job.packet;
    assert pc.written < |pc.job.packet|;
    more := Do(codec, states, WriteObject(q, |pc.job.packet| - pc.written));
  }

  lemma ReachNaming(codec: Codec, states: seq<State>, r: SuiteResult) returns (more: seq<State>, p: Publisher)
    requires Sound(codec) && Run(codec, states) && Encoded(codec, r).Some?
    requires !Interrupted(Final(states), JobOf(codec, r).hash)
    ensures Continues(codec, states, more) && At(Final(more), p, Naming(JobOf(codec, r)))
  {
    var s, h := Final(states), JobOf(codec, r).hash;
    if h !in s.objects {
      more, p := WriteAbsentObject(codec, states, r);
    } else {
      more := states;
      if !Complete(s, h) {
        var q :| q in s.publishers && Owns(s.publishers[q], h);
        more := WriterFinishes(codec, states, q, h);
      }
      more, p := CheckCompleteObject(codec, more, r);
    }
  }

  // ----- the main result -----

  /** In the last state of `more`, `r` is published under a name that `s` did not know. */
  ghost predicate PublishesLater(s: State, more: seq<State>, r: SuiteResult) {
    |more| > 0 && exists path :: path !in s.published && PublishedAs(Final(more), path, r)
  }

  lemma InterruptedBlocks(codec: Codec, states: seq<State>, more: seq<State>, r: SuiteResult)
    requires Sound(codec) && Run(codec, states) && Continues(codec, states, more) && Encoded(codec, r).Some?
    requires Interrupted(Final(states), JobOf(codec, r).hash)
    ensures !PublishesLater(Final(states), more, r)
  {
    InterruptedForever(codec, more, |states| - 1, |more| - 1, JobOf(codec, r).hash);
  }

  lemma PublishLater(codec: Codec, states: seq<State>, r: SuiteResult) returns (more: seq<State>)
    requires Sound(codec) && Run(codec, states) && Encoded(codec, r).Some?
    requires !Interrupted(Final(states), JobOf(codec, r).hash)
    ensures Continues(codec, states, more) && PublishesLater(Final(states), more, r)
  {
    var named, p := ReachNaming(codec, states, r);
    var path: Id;
    more, path := PublishReference(codec, named, p, JobOf(codec, r));
    if path in Final(states).published {
      PublishedForever(codec, named, |states| - 1, |named| - 1, path);
      ReachablePublished(codec, named, |named| - 1, path);
      assert false;
    }
  }

  /** From every reachable state an encodable result can still be published, whatever others
      have done and wherever they stopped, if and only if its object was not left incomplete
      by a writer that stopped. */
  lemma PublishableExactlyWhen(codec: Codec, states: seq<State>, r: SuiteResult)
    requires Sound(codec) && Run(codec, states) && Encoded(codec, r).Some?
    ensures (exists more :: Continues(codec, states, more) && PublishesLater(Final(states), more, r)) <==>
            !Interrupted(Final(states), codec.digest(Encoded(codec, r).value))
  {
    if !Interrupted(Final(states), JobOf(codec, r).hash) {
      var more := PublishLater(codec, states, r);
    } else {
      forall more | Continues(codec, states, more) ensures !PublishesLater(Final(states), more, r) {
        InterruptedBlocks(codec, states, more, r);
      }
    }
  }

  /** Three steps reach an interrupted object, for every result that can be encoded. */
  lemma InterruptedIsReached(codec: Codec, r: SuiteResult) returns (states: seq<State>)
    requires Sound(codec) && Encoded(codec, r).Some?
    ensures Run(codec, states) && |states| == 4 && Interrupted(Final(states), codec.digest(Encoded(codec, r).value))
  {
    var job := JobOf(codec, r);
    assert IsGzip(job.packet);
    states := [Init()];
    states := Do(codec, states, Persist(0, r));
    states := Do(codec, states, CreateNew(0));
    assert At(Final(states), 0, Writing(job, 0));
    states := Do(codec, states, Stop(0, false));
    assert Final(states).objects[job.hash] == [] && Final(states).packets[job.hash] == job.packet;
    assert Final(states).publishers.Keys == {0};
  }
}
