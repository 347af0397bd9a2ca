/** The content-addressed evidence store (src/storage.rs): any number of publishers write
    into one `objects/` and one `runs/` directory, each may stop at any step, and a reader
    follows a reference to its object. */
module Store {

  import opened Wrappers

  /** File contents; nothing here depends on the range of a byte. */
  type Bytes = seq<int>

  /** The name of an object: the digest of its contents in hexadecimal. */
  datatype Digest = Digest(hex: string)

  /** `MAX_PACKET_BYTES`: 256 MiB. */
  const MAX_PACKET_BYTES: nat := 256 * 1024 * 1024

  /** A reference file: format version and the digest of the object. */
  datatype Reference = Reference(version: nat, sha256: Digest)

  /** A suite result. Results are finite values, so they can be numbered; nothing else about
      them matters to the store. */
  type SuiteResult = int

  /** The encodings the store is built on. */
  datatype Codec = Codec(
    toJson: SuiteResult -> Bytes,
    fromJson: Bytes -> Option<SuiteResult>,
    gzip: Bytes -> Bytes,
    gunzip: Bytes -> Option<Bytes>,
    digest: Bytes -> Digest,
    isDigest: Digest -> bool,         // 64 hexadecimal digits in the program
    refToJson: Digest -> Bytes,
    refFromJson: Bytes -> Option<Reference>)

  predicate IsGzip(b: Bytes) { |b| >= 2 && b[0] == 0x1f && b[1] == 0x8b }

  /** What is assumed of gzip, JSON and SHA-256: inverse pairs, recognisable formats and an
      injective digest. A digest of fixed width cannot be injective on all contents, so the form of
      a digest is a parameter. */
  ghost predicate Sound(codec: Codec) {
    && (forall r {:trigger codec.toJson(r)} :: codec.fromJson(codec.toJson(r)) == Some(r))
    && (forall b {:trigger codec.gzip(b)} :: codec.gunzip(codec.gzip(b)) == Some(b) && IsGzip(codec.gzip(b)))
    && (forall b {:trigger codec.digest(b)} :: codec.isDigest(codec.digest(b)))
    && (forall a, b {:trigger codec.digest(a), codec.digest(b)} :: codec.digest(a) == codec.digest(b) ==> a == b)
    && (forall h {:trigger codec.refToJson(h)} ::
          codec.refFromJson(codec.refToJson(h)) == Some(Reference(1, h))
          && !IsGzip(codec.refToJson(h)) && |codec.refToJson(h)| <= MAX_PACKET_BYTES)
  }

  // ----- reading -----

  datatype LoadError = NotFound | TooLarge | InvalidReference | HashMismatch | Malformed
  datatype Loaded = Ok(result: SuiteResult) | Err(error: LoadError)

  function Decode(codec: Codec, compressed: Bytes): Loaded {
    match codec.gunzip(compressed)
    case None => Err(Malformed)
    case Some(json) =>
      if |json| > MAX_PACKET_BYTES then Err(TooLarge)
      else match codec.fromJson(json)
        case None => Err(Malformed)
        case Some(r) => Ok(r)
  }

  /** `load` of the file with contents `file` beside the directory `objects`. */
  function LoadFile(codec: Codec, file: Bytes, objects: map<Digest, Bytes>): Loaded {
    if |file| > MAX_PACKET_BYTES then Err(TooLarge)
    else if IsGzip(file) then Decode(codec, file)
    else match codec.refFromJson(file)
      case Some(reference) =>
        if reference.version != 1 || !codec.isDigest(reference.sha256) then Err(InvalidReference)
        else if reference.sha256 !in objects then Err(NotFound)
        else
          var compressed := objects[reference.sha256];
          if |compressed| > MAX_PACKET_BYTES then Err(TooLarge)
          else if codec.digest(compressed) != reference.sha256 then Err(HashMismatch)
          else Decode(codec, compressed)
      case None =>
        match codec.fromJson(file)
        case None => Err(Malformed)
        case Some(r) => Ok(r)
  }

  /** `encoded`: refuses what the bounded reader could not reopen. */
  function Encoded(codec: Codec, r: SuiteResult): Option<Bytes> {
    var json := codec.toJson(r);
    if |json| > MAX_PACKET_BYTES || |codec.gzip(json)| > MAX_PACKET_BYTES then None
    else Some(codec.gzip(json))
  }

  /** What `save` writes: the packet under a name that ends in `gz`, else the JSON itself. */
  function Saved(codec: Codec, r: SuiteResult, gz: bool): Option<Bytes> {
    if gz then Encoded(codec, r)
    else if |codec.toJson(r)| > MAX_PACKET_BYTES then None
    else Some(codec.toJson(r))
  }

  /** The file is a packet of `r` within the limits, compressed and uncompressed. */
  ghost predicate PacketOf(codec: Codec, packet: Bytes, r: SuiteResult) {
    && |packet| <= 0x1000_0000
    && exists json :: codec.gunzip(packet) == Some(json) && |json| <= 0x1000_0000 && codec.fromJson(json) == Some(r)
  }

  /** Loading gives `r` exactly if the file is a packet of it, or a reference of the first version
      to an object that hashes to its name and is a packet of it, or its JSON. */
  lemma LoadsExactlyWhen(codec: Codec, file: Bytes, objects: map<Digest, Bytes>, r: SuiteResult)
    ensures LoadFile(codec, file, objects) == Ok(r) <==>
      && |file| <= 0x1000_0000
      && if |file| >= 2 && file[0] == 0x1f && file[1] == 0x8b then PacketOf(codec, file, r)
         else match codec.refFromJson(file)
           case Some(Reference(version, h)) =>
             && version == 1 && codec.isDigest(h) && h in objects && codec.digest(objects[h]) == h && PacketOf(codec, objects[h], r)
           case None => codec.fromJson(file) == Some(r)
  {
  }

  /** What was saved is loaded again, in either form: always as a packet, and as JSON unless that
      could be taken for one of the other two kinds of file. Only what is too large is not saved. */
  lemma SavedLoads(codec: Codec, r: SuiteResult, gz: bool, objects: map<Digest, Bytes>)
    requires Sound(codec)
    ensures Saved(codec, r, gz).None? <==>
      |codec.toJson(r)| > MAX_PACKET_BYTES || (gz && |codec.gzip(codec.toJson(r))| > MAX_PACKET_BYTES)
    ensures Saved(codec, r, gz).Some? ==>
      var file := Saved(codec, r, gz).value;
      file == (if gz then codec.gzip(codec.toJson(r)) else codec.toJson(r))
      && (gz || (!IsGzip(file) && codec.refFromJson(file).None?) ==> LoadFile(codec, file, objects) == Ok(r))
  {
    assert codec.gunzip(codec.gzip(codec.toJson(r))) == Some(codec.toJson(r));
    assert codec.fromJson(codec.toJson(r)) == Some(r);
  }

  /** A file beyond the limit is refused as too large whatever it is, and so is a small packet of too
      much JSON. */
  lemma OversizedIsRefused(codec: Codec, file: Bytes, objects: map<Digest, Bytes>)
    ensures |file| > MAX_PACKET_BYTES ==> LoadFile(codec, file, objects) == Err(TooLarge)
    ensures |file| <= MAX_PACKET_BYTES && IsGzip(file) ==>
      var json := codec.gunzip(file);
      json.Some? && |json.value| > MAX_PACKET_BYTES ==> LoadFile(codec, file, objects) == Err(TooLarge)
  {
  }

  /** A reference of another version or to something that is no digest is refused as such, and
      one to an object that is not there as not found. */
  lemma BadReferencesAreRefused(codec: Codec, file: Bytes, objects: map<Digest, Bytes>, reference: Reference)
    requires |file| <= MAX_PACKET_BYTES && !IsGzip(file) && codec.refFromJson(file) == Some(reference)
    ensures LoadFile(codec, file, objects) == Err(InvalidReference) <==> reference.version != 1 || !codec.isDigest(reference.sha256)
    ensures LoadFile(codec, file, objects) == Err(NotFound) <==>
      reference.version == 1 && codec.isDigest(reference.sha256) && reference.sha256 !in objects
  {
  }

  /** Whatever is encoded can be reopened: directly, and through a reference to an object
      that holds exactly it. */
  lemma EncodedReopens(codec: Codec, r: SuiteResult, objects: map<Digest, Bytes>)
    requires Sound(codec) && Encoded(codec, r).Some?
    ensures LoadFile(codec, Encoded(codec, r).value, objects) == Ok(r)
    ensures var h := codec.digest(Encoded(codec, r).value);
      h in objects && objects[h] == Encoded(codec, r).value ==> LoadFile(codec, codec.refToJson(h), objects) == Ok(r)
  {
    var json := codec.toJson(r);
    assert codec.gunzip(codec.gzip(json)) == Some(json);
    var h := codec.digest(Encoded(codec, r).value);
    assert codec.refFromJson(codec.refToJson(h)) == Some(Reference(1, h));
  }

  /** Tampering is detected: an object that differs from what its name was computed from
      is refused, whatever it contains, as too large or by its digest. */
  lemma TamperingIsDetected(codec: Codec, packet: Bytes, objects: map<Digest, Bytes>)
    requires Sound(codec)
    requires codec.digest(packet) in objects && objects[codec.digest(packet)] != packet
    ensures LoadFile(codec, codec.refToJson(codec.digest(packet)), objects) ==
      Err(if |objects[codec.digest(packet)]| > MAX_PACKET_BYTES then TooLarge else HashMismatch)
  {
    var h := codec.digest(packet);
    var found := objects[h];
    assert codec.refFromJson(codec.refToJson(h)) == Some(Reference(1, h));
    assert codec.digest(found) == codec.digest(packet) ==> found == packet;
  }

  // ----- publishing -----

  type Publisher = nat

  /** A file name that `RunId::generate` produced. */
  type Id = nat

  /** The result to persist, its encoding, and the digest of that. */
  datatype Job = Job(r: SuiteResult, packet: Bytes, hash: Digest)

  /** Where a publisher is. */
  datatype Pc =
    | Creating(job: Job)
    | Writing(job: Job, written: nat)
    | Checking(job: Job, seen: Bytes)
    | Naming(job: Job)
    | TempOpening(job: Job, path: Id)
    | TempWriting(job: Job, path: Id, temp: Id, written: nat)
    | Stopped

  /** `packets` and `published` are history: the packet each object was created for, and
      the result each reference was published for. `used` are the generated names. */
  datatype State = State(
    objects: map<Digest, Bytes>,
    runs: map<Id, Bytes>,
    temps: map<Id, Bytes>,
    publishers: map<Publisher, Pc>,
    used: set<Id>,
    packets: map<Digest, Bytes>,
    published: map<Id, SuiteResult>)

  datatype Action =
    | Persist(p: Publisher, r: SuiteResult)
    | CreateNew(p: Publisher)
    | WriteObject(p: Publisher, count: nat)
    | ReadObject(p: Publisher, count: nat)
    | GenerateName(p: Publisher, path: Id)
    | CreateTemp(p: Publisher, temp: Id)
    | WriteTemp(p: Publisher, count: nat)
    | Rename(p: Publisher)
    | Stop(p: Publisher, removed: bool)

  function Init(): State { State(map[], map[], map[], map[], {}, map[], map[]) }

  function Goto(s: State, p: Publisher, pc: Pc): State {
    s.(publishers := s.publishers[p := pc])
  }

  /** Creating the object, if nobody has (lines 234-239 and 243). */
  function CreateNewStep(s: State, p: Publisher): Option<State>
    requires p in s.publishers
  {
    var pc := s.publishers[p];
    if !pc.Creating? then None
    else if pc.job.hash in s.objects then Some(Goto(s, p, Checking(pc.job, [])))
    else Some(Goto(s, p, Writing(pc.job, 0))
              .(objects := s.objects[pc.job.hash := []], packets := s.packets[pc.job.hash := pc.job.packet]))
  }

  /** `write_all` appends any positive number of bytes at a time; then `sync_all` (lines 240-241). */
  function WriteObjectStep(s: State, p: Publisher, count: nat): Option<State>
    requires p in s.publishers
  {
    var pc := s.publishers[p];
    if !pc.Writing? then None
    else if pc.written == |pc.job.packet| then Some(Goto(s, p, Naming(pc.job)))
    else if count == 0 || pc.written + count > |pc.job.packet| then None
    else Some(Goto(s, p, Writing(pc.job, pc.written + count))
              .(objects := s.objects[pc.job.hash := pc.job.packet[..pc.written + count]]))
  }

  /** The bounded read of an existing object, chunk by chunk while a writer may still
      append, and the digest check at its end (lines 244-249 and 142-151). */
  function ReadObjectStep(codec: Codec, s: State, p: Publisher, count: nat): Option<State>
    requires p in s.publishers
  {
    var pc := s.publishers[p];
    if !pc.Checking? || pc.job.hash !in s.objects then None else
      var file := s.objects[pc.job.hash];
      if |pc.seen| >= |file| || |pc.seen| > MAX_PACKET_BYTES then
        if |pc.seen| <= MAX_PACKET_BYTES && codec.digest(pc.seen) == pc.job.hash
          then Some(Goto(s, p, Naming(pc.job)))
        else Some(Goto(s, p, Stopped))
      else if count == 0 || |pc.seen| + count > |file| || |pc.seen| + count > MAX_PACKET_BYTES + 1 then None
      else Some(Goto(s, p, Checking(pc.job, file[..|pc.seen| + count])))
  }

  /** Naming the reference and writing it to a temporary file (lines 254-262 and 70-76). */
  function TempStep(codec: Codec, s: State, a: Action): Option<State>
    requires (a.GenerateName? || a.CreateTemp? || a.WriteTemp?) && a.p in s.publishers
  {
    var p := a.p;
    var pc := s.publishers[p];
    match a
    case GenerateName(_, path) =>
      if !pc.Naming? || path in s.used then None
      else Some(Goto(s, p, TempOpening(pc.job, path)).(used := s.used + {path}))
    case CreateTemp(_, temp) =>
      if !pc.TempOpening? then None
      else if temp in s.temps then Some(Goto(s, p, Stopped))
      else Some(Goto(s, p, TempWriting(pc.job, pc.path, temp, 0)).(temps := s.temps[temp := []]))
    case WriteTemp(_, count) =>
      if !pc.TempWriting? then None else
        var text := codec.refToJson(pc.job.hash);
        if count == 0 || pc.written + count > |text| then None
        else Some(Goto(s, p, TempWriting(pc.job, pc.path, pc.temp, pc.written + count))
                  .(temps := s.temps[pc.temp := text[..pc.written + count]]))
  }

  /** Publishing the reference (line 79). */
  function RenameStep(codec: Codec, s: State, p: Publisher): Option<State>
    requires p in s.publishers
  {
    var pc := s.publishers[p];
    if !pc.TempWriting? || pc.written != |codec.refToJson(pc.job.hash)| || pc.temp !in s.temps then None
    else Some(Goto(s, p, Stopped).(runs := s.runs[pc.path := s.temps[pc.temp]], temps := s.temps - {pc.temp},
                                   published := s.published[pc.path := pc.job.r]))
  }

  /** Encoding the result (lines 231-233). */
  function PersistStep(codec: Codec, s: State, p: Publisher, r: SuiteResult): Option<State> {
    if p in s.publishers then None
    else if Encoded(codec, r).None? then Some(Goto(s, p, Stopped))
    else
      var packet := Encoded(codec, r).value;
      Some(Goto(s, p, Creating(Job(r, packet, codec.digest(packet)))))
  }

  /** An I/O error or a crash: an object file is never removed, a temporary file only after
      an error and if that works (lines 81-83). */
  function StopStep(s: State, p: Publisher, removed: bool): Option<State>
    requires p in s.publishers
  {
    var pc := s.publishers[p];
    if pc.Stopped? then None
    else Some(Goto(s, p, Stopped).(temps := if removed && pc.TempWriting? then s.temps - {pc.temp} else s.temps))
  }

  function Step(codec: Codec, s: State, a: Action): Option<State> {
    if a.Persist? then PersistStep(codec, s, a.p, a.r)
    else if a.p !in s.publishers then None
    else match a
      case CreateNew(p) => CreateNewStep(s, p)
      case WriteObject(p, count) => WriteObjectStep(s, p, count)
      case ReadObject(p, count) => ReadObjectStep(codec, s, p, count)
      case GenerateName(_, _) => TempStep(codec, s, a)
      case CreateTemp(_, _) => TempStep(codec, s, a)
      case WriteTemp(_, _) => TempStep(codec, s, a)
      case Rename(p) => RenameStep(codec, s, p)
      case Stop(p, removed) => StopStep(s, p, removed)
  }

  /** What could not be reopened is refused before anything is written. */
  lemma OversizedIsNotStored(codec: Codec, s: State, p: Publisher, r: SuiteResult)
    requires p !in s.publishers
    ensures |codec.toJson(r)| > MAX_PACKET_BYTES || |codec.gzip(codec.toJson(r))| > MAX_PACKET_BYTES ==>
      Step(codec, s, Persist(p, r)) == Some(Goto(s, p, Stopped))
  {
  }

  /** Stopping leaves every object and reference; at most the publisher's own temporary file goes. */
  lemma StopLeavesFiles(codec: Codec, s: State, p: Publisher, removed: bool, t: State)
    requires Step(codec, s, Stop(p, removed)) == Some(t)
    ensures p in s.publishers && t.publishers == s.publishers[p := Stopped]
    ensures t.objects == s.objects && t.runs == s.runs && t.published == s.published
    ensures t.temps == s.temps - if removed && s.publishers[p].TempWriting? then {s.publishers[p].temp} else {}
  {
  }

  ghost predicate Next(codec: Codec, s: State, t: State) {
    exists a :: Step(codec, s, a) == Some(t)
  }

  /** A run: any number of publishers, any interleaving, failures and crashes at any step. */
  ghost predicate NextAt(codec: Codec, states: seq<State>, i: nat)
    requires 0 < i < |states|
  {
    Next(codec, states[i - 1], states[i])
  }

  ghost predicate Run(codec: Codec, states: seq<State>) {
    && |states| > 0
    && states[0] == Init()
    && forall i :: 0 < i < |states| ==> NextAt(codec, states, i)
  }
}
