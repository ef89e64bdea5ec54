/** Config file writes: `atomicWriteFile`, `validateAndWriteYAML`, `updateYAMLSection`
    (internal/admin/config_yaml.go) and `BackupFile` with its own atomic writer
    (internal/config/guard.go).

    Every system call can succeed, fail or be the last thing the process does, as an
    arbitrary script decides. A reader that looks at the disk between two calls sees what a
    crash at that point would leave. YAML and validation are parameters. */
module ConfigFile {
  import opened Prelude

  type Bytes = string

  /** The names the code writes: the config file, its backup, and temporary files. */
  datatype Path = Config | LastGood | Temp(serial: nat)

  /** `synced`: the bytes are known to be on the medium. */
  datatype File = File(data: Bytes, synced: bool)

  type Files = map<Path, File>

  /** What becomes of one system call. A failing or final write may have written `part`
      bytes; any other final call has taken effect when `part` is positive. */
  datatype Event = Success | Error(part: nat) | Crash(part: nat)

  datatype Status = Done | Failed | Crashed

  /** The disk: the names in force, and the files that a rename has replaced. The code never
      syncs the directory, so a power loss may bring a replaced file back. */
  datatype Disk = Disk(files: Files, past: seq<(Path, File)>)

  function Lookup(files: Files, p: Path): Option<File> { if p in files then Some(files[p]) else None }

  /** `f` is, or was, the file called `p`. */
  predicate Known(d: Disk, p: Path, f: File) { Lookup(d.files, p) == Some(f) || (p, f) in d.past }

  /** What a reader may find under `p` after a power loss: the bytes of a known file, and any
      bytes at all if that file was not synced. */
  ghost predicate MaySurvive(d: Disk, p: Path, bytes: Bytes) {
    || (exists f: File :: f.data == bytes && Known(d, p, f))
    || (exists f: File :: !f.synced && Known(d, p, f))
  }

  /** The file `p`, in all its versions, is synced and valid. */
  ghost predicate SoundAt(d: Disk, p: Path, valid: Bytes -> bool) {
    forall f: File :: Known(d, p, f) ==> f.synced && valid(f.data)
  }

  ghost predicate Sound(d: Disk, valid: Bytes -> bool) { SoundAt(d, Config, valid) && SoundAt(d, LastGood, valid) }

  /** What a write keeps: soundness of the config file alone, soundness of both files, and
      validity of the present config. */
  ghost predicate KeepsSound(a: Disk, b: Disk, valid: Bytes -> bool) {
    && (SoundAt(a, Config, valid) ==> SoundAt(b, Config, valid))
    && (Sound(a, valid) ==> Sound(b, valid))
    && (ConfigValid(a, valid) ==> ConfigValid(b, valid))
  }

  predicate ConfigValid(d: Disk, valid: Bytes -> bool) { Config in d.files ==> valid(d.files[Config].data) }

  /** A sound file never shows invalid bytes, not even after a power loss. */
  lemma SoundSurvives(d: Disk, valid: Bytes -> bool, p: Path, bytes: Bytes)
    requires SoundAt(d, p, valid) && MaySurvive(d, p, bytes)
    ensures valid(bytes)
  {
  }

  /** Every difference between two states of the disk is a temporary file. */
  predicate NamedKept(a: Disk, b: Disk) {
    a.past == b.past && Lookup(a.files, Config) == Lookup(b.files, Config)
    && Lookup(a.files, LastGood) == Lookup(b.files, LastGood)
  }

  /** A rename of a file over `target`. */
  function Replace(d: Disk, target: Path, f: File): Disk {
    Disk(d.files[target := f], if target in d.files then d.past + [(target, d.files[target])] else d.past)
  }

  /** `b` is `a`, temporary files aside, with `target` replaced by a synced file of `data`. */
  predicate Replaced(a: Disk, b: Disk, target: Path, data: Bytes) { NamedKept(Replace(a, target, File(data, true)), b) }

  /** `b` is `a`, temporary files aside, with the backup possibly brought up to date. */
  predicate BackedUp(a: Disk, b: Disk) {
    NamedKept(a, b) || (Config in a.files && Replaced(a, b, LastGood, a.files[Config].data))
  }

  lemma ReplacedKeepsSound(a: Disk, b: Disk, target: Path, data: Bytes, valid: Bytes -> bool, p: Path)
    requires !target.Temp? && !p.Temp? && Replaced(a, b, target, data)
    requires SoundAt(a, p, valid) && (p == target ==> valid(data))
    ensures SoundAt(b, p, valid)
  {
    forall f: File | Known(b, p, f) ensures f.synced && valid(f.data) {
      if (p, f) in b.past || p != target {
        assert Known(a, p, f);
      } else {
        assert f == File(data, true);
      }
    }
  }

  lemma KeptKeepsSound(a: Disk, b: Disk, valid: Bytes -> bool)
    requires NamedKept(a, b)
    ensures KeepsSound(a, b, valid)
  {
    forall p: Path, f: File | !p.Temp? ensures Known(b, p, f) <==> Known(a, p, f) { }
  }

  lemma BackedUpKeepsSound(a: Disk, b: Disk, valid: Bytes -> bool)
    requires BackedUp(a, b)
    ensures KeepsSound(a, b, valid)
  {
    if NamedKept(a, b) {
      KeptKeepsSound(a, b, valid);
    } else {
      var data := a.files[Config].data;
      if SoundAt(a, Config, valid) { ReplacedKeepsSound(a, b, LastGood, data, valid, Config); }
      if Sound(a, valid) {
        assert Known(a, Config, a.files[Config]);
        ReplacedKeepsSound(a, b, LastGood, data, valid, LastGood);
      }
    }
  }

  lemma NewConfigKeepsSound(a: Disk, b: Disk, data: Bytes, valid: Bytes -> bool)
    requires Replaced(a, b, Config, data) && valid(data)
    ensures KeepsSound(a, b, valid)
  {
    if SoundAt(a, Config, valid) { ReplacedKeepsSound(a, b, Config, data, valid, Config); }
    if SoundAt(a, LastGood, valid) { ReplacedKeepsSound(a, b, Config, data, valid, LastGood); }
  }

  // ---------------------------------------------------------------- the operating system

  class System {
    var disk: Disk
    var serial: nat       // temporary names from here on are unused
    var calls: nat        // system calls made so far
    var down: bool        // the process has crashed
    var asked: set<Path>  // removals asked for
    const script: nat -> Event

    ghost predicate Valid()
      reads this
    {
      forall n: nat :: Temp(n) in disk.files ==> n < serial
    }

    constructor (d: Disk, firstFree: nat, events: nat -> Event)
      requires forall n: nat :: Temp(n) in d.files ==> n < firstFree
      ensures Valid() && disk == d && !down && asked == {} && script == events
    {
      disk, serial, calls, down, asked, script := d, firstFree, 0, false, {}, events;
    }

    method Call() returns (e: Event)
      requires !down
      modifies this`calls, this`down
      ensures down <==> e.Crash?
    {
      e := script(calls);
      calls := calls + 1;
      down := e.Crash?;
    }

    /** A call without an effect on the disk: close, chmod, a read. */
    method Plain() returns (r: Status)
      requires !down
      modifies this`calls, this`down
      ensures down <==> r == Crashed
    {
      var e := Call();
      r := match e case Success => Done case Error(_) => Failed case Crash(_) => Crashed;
    }

    method CreateTemp() returns (r: Status, tmp: Path)
      requires Valid() && !down
      modifies this`disk, this`serial, this`calls, this`down
      ensures Valid() && (down <==> r == Crashed) && NamedKept(old(disk), disk)
      ensures r == Done ==> tmp.Temp? && tmp !in old(disk).files && disk.files == old(disk).files[tmp := File("", false)]
      ensures r == Failed ==> disk == old(disk)
      ensures KeepsTemps(old(disk).files, disk.files)
    {
      tmp := Temp(serial);
      var e := Call();
      if e.Error? {
        return Failed, tmp;
      }
      if e.Success? || e.part > 0 {
        serial := serial + 1;
        disk := disk.(files := disk.files[tmp := File("", false)]);
      }
      r := if e.Success? then Done else Crashed;
    }

    method WriteSync(tmp: Path, data: Bytes) returns (r: Status)
      requires Valid() && !down && tmp.Temp? && tmp in disk.files
      modifies this`disk, this`calls, this`down
      ensures Valid() && (down <==> r == Crashed) && NamedKept(old(disk), disk)
      ensures r == Done ==> disk.files == old(disk).files[tmp := File(data, true)]
      ensures r == Failed ==> tmp in disk.files && disk.files == old(disk).files[tmp := disk.files[tmp]]
      ensures KeepsTemps(old(disk).files - {tmp}, disk.files)
    {
      var e := Call();
      var written := if e.Success? then data else if e.part <= |data| then data[..e.part] else data;
      disk := disk.(files := disk.files[tmp := File(written, false)]);
      if !e.Success? {
        return if e.Error? then Failed else Crashed;
      }
      r := Plain();
      if r == Done {
        disk := disk.(files := disk.files[tmp := File(data, true)]);
      }
    }

    /** `os.Remove` of the temporary file on an error path; its own error is ignored. */
    method Cleanup(tmp: Path) returns (r: Status)
      requires Valid() && !down && tmp.Temp?
      modifies this`disk, this`calls, this`down, this`asked
      ensures Valid() && (down <==> r == Crashed) && r != Done && NamedKept(old(disk), disk)
      ensures disk.files == old(disk).files || disk.files == old(disk).files - {tmp}
      ensures asked == old(asked) + {tmp}
    {
      asked := asked + {tmp};
      var e := Call();
      if e.Success? || (e.Crash? && e.part > 0) {
        disk := disk.(files := disk.files - {tmp});
      }
      r := if e.Crash? then Crashed else Failed;
    }

    /** The part the two atomic writers share up to the rename: create, write, sync, close,
        chmod, with the clean-up on every error. */
    method Prepare(data: Bytes) returns (r: Status, tmp: Path)
      requires Valid() && !down
      modifies this
      ensures Valid() && (down <==> r == Crashed) && NamedKept(old(disk), disk) && old(asked) <= asked
      ensures r == Done ==> tmp.Temp? && tmp !in old(disk).files && disk.files == old(disk).files[tmp := File(data, true)]
      ensures r == Failed ==> LeftOver(old(disk).files, disk.files, asked)
      ensures KeepsTemps(old(disk).files, disk.files)
    {
      r, tmp := CreateTemp();
      if r != Done {
        return;
      }
      r := WriteSync(tmp, data);
      if r != Crashed {
        var wrote := r;
        r := Plain();  // close
        if wrote == Done && r == Done {
          r := Plain();  // chmod
          if r == Done {
            return;
          }
        }
        if r != Crashed {
          r := Cleanup(tmp);
        }
      }
    }

    /** `os.Rename` with the clean-up on an error. The file under `target` changes at once or
        not at all. */
    method Install(tmp: Path, target: Path, data: Bytes) returns (r: Status)
      requires Valid() && !down && tmp.Temp? && !target.Temp?
      requires Lookup(disk.files, tmp) == Some(File(data, true))
      modifies this
      ensures Valid() && (down <==> r == Crashed) && old(asked) <= asked
      ensures r == Done ==> disk == Replace(old(disk), target, File(data, true)).(
                                      files := old(disk).files[target := File(data, true)] - {tmp})
      ensures r == Failed ==> NamedKept(old(disk), disk) && tmp in asked &&
                              (disk.files == old(disk).files || disk.files == old(disk).files - {tmp})
      ensures r == Crashed ==> NamedKept(old(disk), disk) || Replaced(old(disk), disk, target, data)
      ensures KeepsTemps(old(disk).files - {tmp}, disk.files)
    {
      var e := Call();
      if e.Error? {
        r := Cleanup(tmp);
        return;
      }
      if e.Success? || e.part > 0 {
        disk := Replace(disk, target, disk.files[tmp]);
        disk := disk.(files := disk.files - {tmp});
      }
      r := if e.Success? then Done else Crashed;
    }

    /** `BackupFile`: the bytes under the config path also survive under the backup name. */
    method BackupFile() returns (r: Status)
      requires Valid() && !down
      modifies this
      ensures Valid() && (down <==> r == Crashed) && old(asked) <= asked
      ensures BackedUp(old(disk), disk)
      ensures r == Done && Config in old(disk).files ==>
                LastGood in disk.files && disk.files[LastGood].data == old(disk).files[Config].data
      ensures r != Crashed ==> LeftOver(old(disk).files, disk.files, asked)
      ensures KeepsTemps(old(disk).files, disk.files)
    {
      r := Plain();  // read the config
      if r != Done || Config !in disk.files {
        return;
      }
      var raw := disk.files[Config].data;
      r := Plain();  // read the backup
      if r == Crashed {
        return;
      }
      if r == Done && LastGood in disk.files && disk.files[LastGood].data == raw {
        return;
      }
      var tmp;
      r, tmp := Prepare(raw);
      if r != Done {
        return;
      }
      r := Install(tmp, LastGood, raw);
    }

    /** `atomicWriteFile`. */
    method AtomicWriteFile(data: Bytes) returns (r: Status)
      requires Valid() && !down
      modifies this
      ensures Valid() && (down <==> r == Crashed)
      ensures r == Done ==> Lookup(disk.files, Config) == Some(File(data, true))
      ensures r == Done && Config in old(disk).files ==>
                LastGood in disk.files && disk.files[LastGood].data == old(disk).files[Config].data
      ensures r == Failed ==> Lookup(disk.files, Config) == Lookup(old(disk).files, Config)
      ensures r != Crashed ==> LeftOver(old(disk).files, disk.files, asked)
      ensures WrittenOrNot(old(disk), disk, data, r)
    {
      var tmp;
      r, tmp := Prepare(data);
      if r != Done {
        return;
      }
      ghost var prepared := disk;
      r := BackupFile();
      assert BackedUp(old(disk), disk);
      if r == Failed {
        r := Cleanup(tmp);
        assert BackedUp(old(disk), disk);
        return;
      }
      if r == Crashed {
        return;
      }
      ghost var mid := disk;
      assert BackedUp(old(disk), mid);
      r := Install(tmp, Config, data);
    }

    /** `validateAndWriteYAML`: nothing is touched unless the document marshals and the bytes
        validate. */
    method ValidateAndWrite(codec: Codec, doc: Doc) returns (r: Update)
      requires Valid() && !down
      modifies this
      ensures Valid() && (down <==> r.Stopped?)
      ensures r in {Saved, MarshalFailed, Rejected, WriteFailed, Stopped}
      ensures r == MarshalFailed <==> codec.marshal(doc) == None
      ensures r == Rejected <==> codec.marshal(doc).Some? && !codec.valid(codec.marshal(doc).value)
      ensures r == MarshalFailed || r == Rejected ==> disk == old(disk) && asked == old(asked)
      ensures r in {Saved, WriteFailed, Stopped} ==>
                WrittenOrNot(old(disk), disk, codec.marshal(doc).value, StatusOf(r))
      ensures r in {Saved, WriteFailed} ==> LeftOver(old(disk).files, disk.files, asked)
    {
      match codec.marshal(doc)
      case None => return MarshalFailed;
      case Some(bytes) =>
        if !codec.valid(bytes) {
          return Rejected;
        }
        var written := AtomicWriteFile(bytes);
        r := match written case Done => Saved case Failed => WriteFailed case Crashed => Stopped;
    }

    /** `updateYAMLSection`, under the config mutex. The outcome says exactly what became of
        the config file: it holds the mutated document when the update was saved, and also
        when only the reload failed; it is as before on every other error. */
    method UpdateSection(codec: Codec, mutate: Doc -> Option<Doc>, reloads: bool) returns (r: Update)
      requires Valid() && !down
      modifies this
      ensures Valid() && (down <==> r.Stopped?)
      ensures KeepsSound(old(disk), disk, codec.valid)
      ensures r in {Saved, ReloadFailed} ==>
                NewBytes(codec, mutate, old(disk)).Some? &&
                Lookup(disk.files, Config) == Some(File(NewBytes(codec, mutate, old(disk)).value, true))
      ensures !r.Stopped? && r !in {Saved, ReloadFailed} ==>
                Lookup(disk.files, Config) == Lookup(old(disk).files, Config)
      ensures r.Stopped? ==>
                Lookup(disk.files, Config) == Lookup(old(disk).files, Config) ||
                (NewBytes(codec, mutate, old(disk)).Some? &&
                 Lookup(disk.files, Config) == Some(File(NewBytes(codec, mutate, old(disk)).value, true)))
    {
      var read := Plain();
      if read == Crashed {
        KeptKeepsSound(old(disk), disk, codec.valid);
        return Stopped;
      }
      if read == Failed || Config !in disk.files {
        KeptKeepsSound(old(disk), disk, codec.valid);
        return ReadFailed;
      }
      match codec.parse(disk.files[Config].data)
      case None => return ReadFailed;
      case Some(doc) =>
        match mutate(doc)
        case None => return MutationFailed;
        case Some(doc') =>
          r := ValidateAndWrite(codec, doc');
          if r in {Saved, WriteFailed, Stopped} {
            WrittenKeepsSound(old(disk), disk, codec.marshal(doc').value, StatusOf(r), codec.valid);
          }
          if r == Saved && !reloads {
            return ReloadFailed;
          }
    }

    /** Config file safety over all runs: after any sequence of mutations, with an error or a
        crash at any system call, a valid config is valid, and a config file whose versions
        were all valid and synced still is that, so that with `SoundSurvives` whatever can be
        read under its name is valid; the same holds of config and backup together. The
        config file holds exactly the bytes that the successful mutations produced, in order,
        whatever it held at the start. */
    method RunMutations(codec: Codec, mutations: seq<(Doc -> Option<Doc>, bool)>) returns (results: seq<Update>)
      requires Valid() && !down
      modifies this
      ensures Valid() && KeepsSound(old(disk), disk, codec.valid)
      ensures |results| <= |mutations| && (!down ==> |results| == |mutations|)
      ensures !down ==> Content(disk) == Replay(codec, mutations, results, Content(old(disk)))
      ensures down ==> StoppedIn(codec, mutations, results, Content(old(disk)), Content(disk))
    {
      results := [];
      for k := 0 to |mutations|
        invariant Valid() && !down && KeepsSound(old(disk), disk, codec.valid)
        invariant |results| == k
        invariant Content(disk) == Replay(codec, mutations[..k], results, Content(old(disk)))
      {
        ghost var was := disk;
        var r := UpdateSection(codec, mutations[k].0, mutations[k].1);
        ReplaySnoc(codec, mutations[..k], results, mutations[k], r, Content(old(disk)));
        ReplaySnoc(codec, mutations[..k], results, mutations[k], Saved, Content(old(disk)));
        assert mutations[..k] + [mutations[k]] == mutations[..k + 1];
        assert (results + [r])[k := Saved] == results + [Saved];
        results := results + [r];
        if r.Stopped? {
          return;
        }
      }
      assert mutations[..|mutations|] == mutations;
    }
  }

  // ---------------------------------------------------------------- documents

  /** A parsed YAML document; only what the codec makes of it matters. */
  datatype Doc = Doc(tree: string)

  /** The YAML codec and `ProbeValidate`. */
  datatype Codec = Codec(parse: Bytes -> Option<Doc>, marshal: Doc -> Option<Bytes>, valid: Bytes -> bool)

  datatype Update = Saved | ReadFailed | MutationFailed | MarshalFailed | Rejected | WriteFailed | ReloadFailed | Stopped

  function StatusOf(r: Update): Status {
    match r
    case Saved | ReloadFailed => Done
    case Stopped => Crashed
    case _ => Failed
  }

  function Content(d: Disk): Option<Bytes> {
    if Config in d.files then Some(d.files[Config].data) else None
  }

  /** The bytes a mutation makes of the present content: parsed, mutated, marshalled and
      validated; `None` when one of the four refuses. */
  function Mutated(codec: Codec, mutate: Doc -> Option<Doc>, content: Option<Bytes>): Option<Bytes> {
    match content
    case None => None
    case Some(bytes) =>
      match codec.parse(bytes)
      case None => None
      case Some(doc) =>
        match mutate(doc)
        case None => None
        case Some(doc') =>
          match codec.marshal(doc')
          case None => None
          case Some(out) => if codec.valid(out) then Some(out) else None
  }

  function NewBytes(codec: Codec, mutate: Doc -> Option<Doc>, d: Disk): Option<Bytes> {
    Mutated(codec, mutate, Content(d))
  }

  /** The content after a list of mutations, given which of them took effect. */
  function Replay(codec: Codec, mutations: seq<(Doc -> Option<Doc>, bool)>, results: seq<Update>, start: Option<Bytes>):
    Option<Bytes>
    requires |mutations| == |results|
    decreases |mutations|
  {
    if mutations == [] then start
    else
      var next := if results[0] in {Saved, ReloadFailed} then Mutated(codec, mutations[0].0, start) else start;
      Replay(codec, mutations[1..], results[1..], next)
  }

  /** A crash leaves the content of the mutations before the last one, or of that one too. */
  predicate StoppedIn(codec: Codec, mutations: seq<(Doc -> Option<Doc>, bool)>, results: seq<Update>,
                      start: Option<Bytes>, content: Option<Bytes>)
  {
    && 0 < |results| <= |mutations| && results[|results| - 1] == Stopped
    && (content == Replay(codec, mutations[..|results|], results, start) ||
        content == Replay(codec, mutations[..|results|], results[|results| - 1 := Saved], start))
  }

  lemma {:induction false} ReplaySnoc(codec: Codec, mutations: seq<(Doc -> Option<Doc>, bool)>, results: seq<Update>,
                                      m: (Doc -> Option<Doc>, bool), r: Update, start: Option<Bytes>)
    requires |mutations| == |results|
    ensures Replay(codec, mutations + [m], results + [r], start) ==
            var before := Replay(codec, mutations, results, start);
            if r in {Saved, ReloadFailed} then Mutated(codec, m.0, before) else before
    decreases |mutations|
  {
    if mutations != [] {
      assert (mutations + [m])[1..] == mutations[1..] + [m];
      assert (results + [r])[1..] == results[1..] + [r];
      var next := if results[0] in {Saved, ReloadFailed} then Mutated(codec, mutations[0].0, start) else start;
      ReplaySnoc(codec, mutations[1..], results[1..], m, r, next);
    }
  }

  lemma WrittenKeepsSound(a: Disk, b: Disk, data: Bytes, r: Status, valid: Bytes -> bool)
    requires WrittenOrNot(a, b, data, r) && valid(data)
    ensures KeepsSound(a, b, valid)
    ensures Lookup(b.files, Config) == Lookup(a.files, Config) || Lookup(b.files, Config) == Some(File(data, true))
    ensures r == Done ==> Lookup(b.files, Config) == Some(File(data, true))
    ensures r == Failed ==> Lookup(b.files, Config) == Lookup(a.files, Config)
  {
    var mid :| BackedUp(a, mid) &&
      ((r != Done && NamedKept(mid, b)) || (r != Failed && Replaced(mid, b, Config, data)));
    BackedUpKeepsSound(a, mid, valid);
    if r != Done && NamedKept(mid, b) {
      KeptKeepsSound(mid, b, valid);
    } else {
      NewConfigKeepsSound(mid, b, data, valid);
    }
  }

  predicate KeepsTemps(before: Files, after: Files) {
    forall p: Path | p.Temp? :: p in before ==> p in after && after[p] == before[p]
  }

  /** Temporary files that a finished call leaves behind have been asked to be removed. */
  predicate LeftOver(before: Files, after: Files, asked: set<Path>) {
    forall p: Path | p.Temp? :: p in after && p !in before ==> p in asked
  }

  /** The disk after a write: a possible backup, then a possible replacement of the config;
      the replacement is certain on success and excluded on an error. */
  ghost predicate WrittenOrNot(a: Disk, b: Disk, data: Bytes, r: Status) {
    exists mid: Disk :: BackedUp(a, mid) &&
      ((r != Done && NamedKept(mid, b)) || (r != Failed && Replaced(mid, b, Config, data)))
  }
}
