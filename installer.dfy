/**
 * The install sequence. The shim binary is copied into a temporary file
 * and renamed into the host directory, then made executable; the patched
 * configuration is written to a temporary file next to the real one and
 * renamed over it; then the service manager is asked to restart
 * containerd, and the first of its answer or cancellation decides the
 * outcome. Every step can fail, and a failure returns at once.
 *
 * The host is an abstract file system (path to content and mode), a set
 * of directories, and a journal of the mutations made, in order. Which
 * operating-system calls fail is an input (`Env.faults`), as are the
 * temporary names the system picks, the TOML codec, and the reload event
 * that arrives first.
 */
module Installer {
  import opened Outcomes
  import opened Config
  import opened RuntimeType

  type Path = string
  type Bytes = seq<bv8>

  /** 0600, the mode of a file made by os.CreateTemp. */
  const TempFileMode: nat := 384
  /** 0755, the mode the installed binary is given. */
  const ExecutableMode: nat := 493

  const ServiceUnit: string := "containerd.service"
  const RestartJobMode: string := "replace"
  const DoneStatus: string := "done"

  datatype File = File(content: Bytes, mode: nat)

  /** The calls install makes, in source order. */
  datatype Step =
    | StatBinary | MakePrefix | MakeTempDir | CreateTempBinary | OpenBinary | CopyBinary
    | RenameBinary | ChmodBinary
    | CreateTempConfig | OpenConfig | PatchConfig | WriteConfig
    | RenameConfig
    | ConnectBus | RequestRestart | AwaitRestart

  /** What reaches the final select first: cancellation of the context, or the job status. */
  datatype ReloadEvent = Cancelled | Status(status: string)

  datatype Reason =
    | NotFound
    | IoFailure
    | BadConfig(error: PatchError)
    | ContextCancelled
    | UnexpectedStatus(status: string)

  /** The error install returns, tagged with the call that produced it. */
  datatype InstallError = Failure(at: Step, reason: Reason)

  /** A mutation of the host, as it is recorded in the journal. */
  datatype Event =
    | MadeDir(dir: Path)
    | Created(path: Path)
    | Wrote(path: Path)
    | Renamed(src: Path, dst: Path)
    | Chmodded(path: Path, mode: nat)
    | RestartRequested(unit: string, jobMode: string)

  /** The parameters of install. */
  datatype Args = Args(bin: Path, name: string, prefix: Path, criConfig: Path)

  /** What the outside world decides during one install. */
  datatype Env = Env(
    tmpDir: Path,
    tmpBinary: Path,
    tmpConfig: Path,
    faults: set<Step>,
    decode: Bytes -> Option<Document>,
    encode: Document -> Bytes,
    event: ReloadEvent)

  /** The host state plus the bytes install holds in hand (the open file, the marshalled config). */
  datatype Machine = Machine(files: map<Path, File>, dirs: set<Path>, journal: seq<Event>, buffer: Bytes)

  /** Where a run stopped, and why if it stopped early. */
  datatype Run = Run(m: Machine, err: Option<InstallError>)

  /** prefix + "/" + base name of the binary: where the shim is installed. */
  function Dest(args: Args): Path {
    args.prefix + "/" + Base(args.bin)
  }

  /** The runtime type registered for the binary. */
  function TypeName(args: Args): string {
    RuntimeTypeOf(Base(args.bin))
  }

  function Lookup(files: map<Path, File>, p: Path): Option<File> {
    if p in files then Some(files[p]) else None
  }

  /** The answer of an OS call on an object that must exist. */
  function OsResult(present: bool, fails: bool): Option<Reason> {
    if !present then Some(NotFound) else if fails then Some(IoFailure) else None
  }

  /** The mode a write leaves on `p`: the file's own, or that of a fresh temporary file. */
  function ModeOf(files: map<Path, File>, p: Path): nat {
    if p in files then files[p].mode else TempFileMode
  }

  /** rename(src, dst): dst gets src's file, src is gone; renaming a file onto itself changes nothing. */
  function Moved(files: map<Path, File>, src: Path, dst: Path): map<Path, File>
    requires src in files
  {
    if src == dst then files else (files - {src})[dst := files[src]]
  }

  /** The final select: "done" is success, any other status an error carrying it, cancellation its own error. */
  function ReloadOutcome(ev: ReloadEvent): (r: Option<Reason>)
    ensures r.None? <==> ev == Status(DoneStatus)
    ensures ev.Cancelled? ==> r == Some(ContextCancelled)
    ensures ev.Status? && ev.status != DoneStatus ==> r == Some(UnexpectedStatus(ev.status))
  {
    match ev
    case Cancelled => Some(ContextCancelled)
    case Status(status) => if status == DoneStatus then None else Some(UnexpectedStatus(status))
  }

  function Fail(s: Step, e: Option<Reason>): InstallError
    requires e.Some?
  {
    Failure(s, e.value)
  }

  function Record(m: Machine, ev: Event): Machine {
    m.(journal := m.journal + [ev])
  }

  /** Write the buffer to `p`. */
  function WriteBuffer(m: Machine, p: Path): Machine {
    Record(m.(files := m.files[p := File(m.buffer, ModeOf(m.files, p))]), Wrote(p))
  }

  /** main.go:92-96: decode the configuration, register the runtime, marshal the result. */
  function PatchedConfig(text: Bytes, args: Args, env: Env): Result<Bytes, PatchError> {
    var decoded := env.decode(text);
    if decoded.None? then Err(ParseError)
    else
      var patched := Patch(decoded.value, args.name, TypeName(args));
      if patched.Err? then Err(patched.error) else Ok(env.encode(patched.value))
  }

  /** One step of install: the new state, or the error it returns with (the state is then unchanged). */
  function StepOf(m: Machine, s: Step, args: Args, env: Env): (r: Result<Machine, InstallError>)
    ensures r.Err? ==> r.error.at == s
  {
    var fails := s in env.faults;
    match s
    case StatBinary =>
      var e := OsResult(args.bin in m.files, fails);
      if e.Some? then Err(Fail(s, e)) else Ok(m)
    case MakePrefix =>
      var e := OsResult(true, fails);
      if e.Some? then Err(Fail(s, e)) else Ok(Record(m.(dirs := m.dirs + {args.prefix}), MadeDir(args.prefix)))
    case MakeTempDir =>
      var e := OsResult(true, fails);
      if e.Some? then Err(Fail(s, e)) else Ok(Record(m.(dirs := m.dirs + {env.tmpDir}), MadeDir(env.tmpDir)))
    case CreateTempBinary =>
      var e := OsResult(true, fails);
      if e.Some? then Err(Fail(s, e))
      else Ok(Record(m.(files := m.files[env.tmpBinary := File([], TempFileMode)]), Created(env.tmpBinary)))
    case OpenBinary =>
      var e := OsResult(args.bin in m.files, fails);
      if e.Some? then Err(Fail(s, e)) else Ok(m.(buffer := m.files[args.bin].content))
    case CopyBinary =>
      var e := OsResult(true, fails);
      if e.Some? then Err(Fail(s, e)) else Ok(WriteBuffer(m, env.tmpBinary))
    case RenameBinary =>
      var e := OsResult(env.tmpBinary in m.files, fails);
      if e.Some? then Err(Fail(s, e))
      else Ok(Record(m.(files := Moved(m.files, env.tmpBinary, Dest(args))), Renamed(env.tmpBinary, Dest(args))))
    case ChmodBinary =>
      var e := OsResult(Dest(args) in m.files, fails);
      if e.Some? then Err(Fail(s, e))
      else Ok(Record(m.(files := m.files[Dest(args) := m.files[Dest(args)].(mode := ExecutableMode)]),
                     Chmodded(Dest(args), ExecutableMode)))
    case CreateTempConfig =>
      var e := OsResult(true, fails);
      if e.Some? then Err(Fail(s, e))
      else Ok(Record(m.(files := m.files[env.tmpConfig := File([], TempFileMode)]), Created(env.tmpConfig)))
    case OpenConfig =>
      var e := OsResult(args.criConfig in m.files, fails);
      if e.Some? then Err(Fail(s, e)) else Ok(m.(buffer := m.files[args.criConfig].content))
    case PatchConfig =>
      var out := PatchedConfig(m.buffer, args, env);
      if out.Err? then Err(Failure(s, BadConfig(out.error))) else Ok(m.(buffer := out.value))
    case WriteConfig =>
      var e := OsResult(true, fails);
      if e.Some? then Err(Fail(s, e)) else Ok(WriteBuffer(m, env.tmpConfig))
    case RenameConfig =>
      var e := OsResult(env.tmpConfig in m.files, fails);
      if e.Some? then Err(Fail(s, e))
      else Ok(Record(m.(files := Moved(m.files, env.tmpConfig, args.criConfig)), Renamed(env.tmpConfig, args.criConfig)))
    case ConnectBus =>
      var e := OsResult(true, fails);
      if e.Some? then Err(Fail(s, e)) else Ok(m)
    case RequestRestart =>
      var e := OsResult(true, fails);
      if e.Some? then Err(Fail(s, e)) else Ok(Record(m, RestartRequested(ServiceUnit, RestartJobMode)))
    case AwaitRestart =>
      var e := ReloadOutcome(env.event);
      if e.Some? then Err(Fail(s, e)) else Ok(m)
  }

  /** Run the steps in order, stopping at the first that fails. */
  function Exec(m: Machine, steps: seq<Step>, args: Args, env: Env): Run
    decreases |steps|
  {
    if steps == [] then Run(m, None)
    else
      match StepOf(m, steps[0], args, env)
      case Err(e) => Run(m, Some(e))
      case Ok(m') => Exec(m', steps[1..], args, env)
  }

  /** os.Stat, os.MkdirAll, os.MkdirTemp: the binary exists and the directories are there. */
  const PrepareSteps: seq<Step> := [StatBinary, MakePrefix, MakeTempDir]
  /** os.CreateTemp, os.Open, io.Copy: the binary is copied to a temporary file, nothing is published. */
  const StageBinarySteps: seq<Step> := [CreateTempBinary, OpenBinary, CopyBinary]
  /** The rename into the host directory and the chmod. */
  const PublishBinarySteps: seq<Step> := [RenameBinary, ChmodBinary]
  /** The patched configuration is written to a temporary file next to the real one. */
  const StageConfigSteps: seq<Step> := [CreateTempConfig, OpenConfig, PatchConfig, WriteConfig]
  /** The rename over the real configuration file. */
  const PublishConfigSteps: seq<Step> := [RenameConfig]
  /** The restart request and the wait for its outcome. */
  const ReloadSteps: seq<Step> := [ConnectBus, RequestRestart, AwaitRestart]

  /** The order install makes its calls in. */
  const Plan: seq<Step> :=
    PrepareSteps + StageBinarySteps + PublishBinarySteps + StageConfigSteps + PublishConfigSteps + ReloadSteps

  /** The whole of install, started on a host with the given files and directories. */
  function InstallSpec(files: map<Path, File>, dirs: set<Path>, args: Args, env: Env): Run {
    Exec(Machine(files, dirs, [], []), Plan, args, env)
  }

  /** Running steps one after the other is running the first list and, unless it failed, the second. */
  lemma {:induction false} ExecAppend(m: Machine, a: seq<Step>, b: seq<Step>, args: Args, env: Env)
    ensures Exec(m, a + b, args, env)
         == var r := Exec(m, a, args, env); if r.err.Some? then r else Exec(r.m, b, args, env)
    decreases |a|
  {
    if a == [] {
      assert a + b == b;
    } else {
      assert (a + b)[0] == a[0];
      assert (a + b)[1..] == a[1..] + b;
      match StepOf(m, a[0], args, env)
      case Err(e) =>
      case Ok(m') => ExecAppend(m', a[1..], b, args, env);
    }
  }

  /** If the run from `m0` is the run from `cur` at step `k`, and step `k` succeeds, it is the run from the next state at `k + 1`. */
  lemma Advance(m0: Machine, cur: Machine, steps: seq<Step>, k: nat, s: Step, next: Machine, args: Args, env: Env)
    requires k < |steps| && steps[k] == s
    requires Exec(m0, steps, args, env) == Exec(cur, steps[k..], args, env)
    requires StepOf(cur, s, args, env) == Ok(next)
    ensures Exec(m0, steps, args, env) == Exec(next, steps[k + 1..], args, env)
  {
    assert steps[k..][0] == steps[k];
    assert steps[k..][1..] == steps[k + 1..];
  }

  /** If the run from `m0` is the run from `cur` at step `k`, and step `k` fails, the run stops there. */
  lemma Stop(m0: Machine, cur: Machine, steps: seq<Step>, k: nat, s: Step, e: InstallError, args: Args, env: Env)
    requires k < |steps| && steps[k] == s
    requires Exec(m0, steps, args, env) == Exec(cur, steps[k..], args, env)
    requires StepOf(cur, s, args, env) == Err(e)
    ensures Exec(m0, steps, args, env) == Run(cur, Some(e))
  {
    assert steps[k..][0] == steps[k];
  }

  /** A run that has taken every step ends where it is, without error. */
  lemma Finish(m0: Machine, cur: Machine, steps: seq<Step>, args: Args, env: Env)
    requires Exec(m0, steps, args, env) == Exec(cur, steps[|steps|..], args, env)
    ensures Exec(m0, steps, args, env) == Run(cur, None)
  {
    assert steps[|steps|..] == [];
  }

  /** updateConfig as install calls it, with the type name derived from the binary (main.go:92-96). */
  method RenderConfig(text: Bytes, args: Args, env: Env) returns (r: Result<Bytes, PatchError>)
    ensures r == PatchedConfig(text, args, env)
  {
    var typeName := RuntimeTypeOf(Base(args.bin));
    var cfg := UpdateConfig(env.decode(text), args.name, typeName);
    if cfg.Err? {
      return Err(cfg.error);
    }
    return Ok(env.encode(cfg.value));
  }

  /** The host install runs on: its files, its directories and the journal of what was done to it. */
  class Host {
    var files: map<Path, File>
    var dirs: set<Path>
    var journal: seq<Event>

    constructor (files0: map<Path, File>, dirs0: set<Path>)
      ensures files == files0 && dirs == dirs0 && journal == []
    {
      files, dirs, journal := files0, dirs0, [];
    }

    /** os.Stat, failing when the path is missing or when `fails`. */
    method Stat(p: Path, fails: bool) returns (err: Option<Reason>)
      ensures err == OsResult(p in files, fails)
    {
      err := OsResult(p in files, fails);
    }

    /** os.MkdirAll, and os.MkdirTemp with the name it picked. */
    method Mkdir(p: Path, fails: bool) returns (err: Option<Reason>)
      modifies this
      ensures err == OsResult(true, fails)
      ensures files == old(files)
      ensures dirs == if err.None? then old(dirs) + {p} else old(dirs)
      ensures journal == if err.None? then old(journal) + [MadeDir(p)] else old(journal)
    {
      err := OsResult(true, fails);
      if err.None? {
        dirs := dirs + {p};
        journal := journal + [MadeDir(p)];
      }
    }

    /** os.CreateTemp with the name it picked: an empty file of mode 0600. */
    method CreateTemp(p: Path, fails: bool) returns (err: Option<Reason>)
      modifies this
      ensures err == OsResult(true, fails)
      ensures files == if err.None? then old(files)[p := File([], TempFileMode)] else old(files)
      ensures dirs == old(dirs)
      ensures journal == if err.None? then old(journal) + [Created(p)] else old(journal)
    {
      err := OsResult(true, fails);
      if err.None? {
        files := files[p := File([], TempFileMode)];
        journal := journal + [Created(p)];
      }
    }

    /** os.Open followed by reading the whole file. */
    method Open(p: Path, fails: bool) returns (err: Option<Reason>, content: Bytes)
      ensures err == OsResult(p in files, fails)
      ensures err.None? ==> content == files[p].content
    {
      err := OsResult(p in files, fails);
      content := if p in files then files[p].content else [];
    }

    /** io.Copy or File.Write into the open file `p`: its content becomes `data`. */
    method Write(p: Path, data: Bytes, fails: bool) returns (err: Option<Reason>)
      modifies this
      ensures err == OsResult(true, fails)
      ensures files == if err.None? then old(files)[p := File(data, ModeOf(old(files), p))] else old(files)
      ensures dirs == old(dirs)
      ensures journal == if err.None? then old(journal) + [Wrote(p)] else old(journal)
    {
      err := OsResult(true, fails);
      if err.None? {
        files := files[p := File(data, ModeOf(files, p))];
        journal := journal + [Wrote(p)];
      }
    }

    /** os.Rename. */
    method Rename(src: Path, dst: Path, fails: bool) returns (err: Option<Reason>)
      modifies this
      ensures err == OsResult(src in old(files), fails)
      ensures files == if err.None? then Moved(old(files), src, dst) else old(files)
      ensures dirs == old(dirs)
      ensures journal == if err.None? then old(journal) + [Renamed(src, dst)] else old(journal)
    {
      err := OsResult(src in files, fails);
      if err.None? {
        files := Moved(files, src, dst);
        journal := journal + [Renamed(src, dst)];
      }
    }

    /** os.Chmod. */
    method Chmod(p: Path, mode: nat, fails: bool) returns (err: Option<Reason>)
      modifies this
      ensures err == OsResult(p in old(files), fails)
      ensures files == if err.None? then old(files)[p := old(files)[p].(mode := mode)] else old(files)
      ensures dirs == old(dirs)
      ensures journal == if err.None? then old(journal) + [Chmodded(p, mode)] else old(journal)
    {
      err := OsResult(p in files, fails);
      if err.None? {
        files := files[p := files[p].(mode := mode)];
        journal := journal + [Chmodded(p, mode)];
      }
    }

    /** RestartUnitContext: the restart job is queued with the service manager. */
    method RestartUnit(unit: string, jobMode: string, fails: bool) returns (err: Option<Reason>)
      modifies this
      ensures err == OsResult(true, fails)
      ensures files == old(files) && dirs == old(dirs)
      ensures journal == if err.None? then old(journal) + [RestartRequested(unit, jobMode)] else old(journal)
    {
      err := OsResult(true, fails);
      if err.None? {
        journal := journal + [RestartRequested(unit, jobMode)];
      }
    }

    /** The state of the host as a machine, with the bytes in hand. */
    ghost function State(buffer: Bytes): Machine
      reads this
    {
      Machine(files, dirs, journal, buffer)
    }

    /** install, main.go:37-48: check the binary is there and make the install and temporary directories. */
    method Prepare(args: Args, env: Env, ghost buffer: Bytes) returns (err: Option<InstallError>, ghost r: Run)
      modifies this
      ensures r == Exec(old(State(buffer)), PrepareSteps, args, env)
      ensures State(r.m.buffer) == r.m && err == r.err
    {
      ghost var m0 := Machine(files, dirs, journal, buffer);
      ghost var steps := PrepareSteps;
      ghost var cur := m0;
      ghost var next: Machine;
      assert steps[0..] == steps;

      var e := Stat(args.bin, StatBinary in env.faults);
      if e.Some? { err := Some(Failure(StatBinary, e.value)); Stop(m0, cur, steps, 0, StatBinary, err.value, args, env); return err, Run(cur, err); }
      next := Machine(files, dirs, journal, buffer);
      Advance(m0, cur, steps, 0, StatBinary, next, args, env);
      cur := next;

      e := Mkdir(args.prefix, MakePrefix in env.faults);
      if e.Some? { err := Some(Failure(MakePrefix, e.value)); Stop(m0, cur, steps, 1, MakePrefix, err.value, args, env); return err, Run(cur, err); }
      next := Machine(files, dirs, journal, buffer);
      Advance(m0, cur, steps, 1, MakePrefix, next, args, env);
      cur := next;

      e := Mkdir(env.tmpDir, MakeTempDir in env.faults);
      if e.Some? { err := Some(Failure(MakeTempDir, e.value)); Stop(m0, cur, steps, 2, MakeTempDir, err.value, args, env); return err, Run(cur, err); }
      next := Machine(files, dirs, journal, buffer);
      Advance(m0, cur, steps, 2, MakeTempDir, next, args, env);
      cur := next;

      Finish(m0, cur, steps, args, env);
      return None, Run(cur, None);
    }

    /** install, main.go:50-67: copy the binary into a new temporary file. */
    method StageBinary(args: Args, env: Env, ghost buffer: Bytes) returns (err: Option<InstallError>, ghost r: Run)
      modifies this
      ensures r == Exec(old(State(buffer)), StageBinarySteps, args, env)
      ensures State(r.m.buffer) == r.m && err == r.err
    {
      ghost var m0 := Machine(files, dirs, journal, buffer);
      ghost var steps := StageBinarySteps;
      ghost var cur := m0;
      ghost var next: Machine;
      assert steps[0..] == steps;

      var e := CreateTemp(env.tmpBinary, CreateTempBinary in env.faults);
      if e.Some? { err := Some(Failure(CreateTempBinary, e.value)); Stop(m0, cur, steps, 0, CreateTempBinary, err.value, args, env); return err, Run(cur, err); }
      next := Machine(files, dirs, journal, buffer);
      Advance(m0, cur, steps, 0, CreateTempBinary, next, args, env);
      cur := next;

      var src;
      e, src := Open(args.bin, OpenBinary in env.faults);
      if e.Some? { err := Some(Failure(OpenBinary, e.value)); Stop(m0, cur, steps, 1, OpenBinary, err.value, args, env); return err, Run(cur, err); }
      next := Machine(files, dirs, journal, src);
      Advance(m0, cur, steps, 1, OpenBinary, next, args, env);
      cur := next;

      e := Write(env.tmpBinary, src, CopyBinary in env.faults);
      if e.Some? { err := Some(Failure(CopyBinary, e.value)); Stop(m0, cur, steps, 2, CopyBinary, err.value, args, env); return err, Run(cur, err); }
      next := Machine(files, dirs, journal, src);
      Advance(m0, cur, steps, 2, CopyBinary, next, args, env);
      cur := next;

      Finish(m0, cur, steps, args, env);
      return None, Run(cur, None);
    }

    /** install, main.go:69-75: rename the staged binary to prefix + "/" + its base name, then chmod it 0755. */
    method PublishBinary(args: Args, env: Env, ghost buffer: Bytes) returns (err: Option<InstallError>, ghost r: Run)
      modifies this
      ensures r == Exec(old(State(buffer)), PublishBinarySteps, args, env)
      ensures State(r.m.buffer) == r.m && err == r.err
    {
      ghost var m0 := Machine(files, dirs, journal, buffer);
      ghost var steps := PublishBinarySteps;
      ghost var cur := m0;
      ghost var next: Machine;
      assert steps[0..] == steps;

      var dest := args.prefix + "/" + Base(args.bin);
      var e := Rename(env.tmpBinary, dest, RenameBinary in env.faults);
      if e.Some? { err := Some(Failure(RenameBinary, e.value)); Stop(m0, cur, steps, 0, RenameBinary, err.value, args, env); return err, Run(cur, err); }
      next := Machine(files, dirs, journal, buffer);
      Advance(m0, cur, steps, 0, RenameBinary, next, args, env);
      cur := next;

      e := Chmod(dest, ExecutableMode, ChmodBinary in env.faults);
      if e.Some? { err := Some(Failure(ChmodBinary, e.value)); Stop(m0, cur, steps, 1, ChmodBinary, err.value, args, env); return err, Run(cur, err); }
      next := Machine(files, dirs, journal, buffer);
      Advance(m0, cur, steps, 1, ChmodBinary, next, args, env);
      cur := next;

      Finish(m0, cur, steps, args, env);
      return None, Run(cur, None);
    }

    /** install, main.go:77-90: create the temporary configuration file and open the real one. */
    method OpenConfigFiles(args: Args, env: Env, ghost buffer: Bytes) returns (err: Option<InstallError>, text: Bytes, ghost r: Run)
      modifies this
      ensures r == Exec(old(State(buffer)), [CreateTempConfig, OpenConfig], args, env)
      ensures State(r.m.buffer) == r.m && err == r.err && (err.None? ==> text == r.m.buffer)
    {
      ghost var m0 := Machine(files, dirs, journal, buffer);
      ghost var steps := [CreateTempConfig, OpenConfig];
      ghost var cur := m0;
      ghost var next: Machine;
      assert steps[0..] == steps;

      var e := CreateTemp(env.tmpConfig, CreateTempConfig in env.faults);
      if e.Some? { err := Some(Failure(CreateTempConfig, e.value)); Stop(m0, cur, steps, 0, CreateTempConfig, err.value, args, env); return err, [], Run(cur, err); }
      next := Machine(files, dirs, journal, buffer);
      Advance(m0, cur, steps, 0, CreateTempConfig, next, args, env);
      cur := next;

      e, text := Open(args.criConfig, OpenConfig in env.faults);
      if e.Some? { err := Some(Failure(OpenConfig, e.value)); Stop(m0, cur, steps, 1, OpenConfig, err.value, args, env); return err, text, Run(cur, err); }
      next := Machine(files, dirs, journal, text);
      Advance(m0, cur, steps, 1, OpenConfig, next, args, env);
      cur := next;

      Finish(m0, cur, steps, args, env);
      return None, text, Run(cur, None);
    }

    /** install, main.go:92-96: patch the configuration read; nothing on the host changes. */
    method PatchStaged(args: Args, env: Env, text: Bytes) returns (err: Option<InstallError>, out: Bytes, ghost r: Run)
      ensures r == Exec(State(text), [PatchConfig], args, env)
      ensures State(r.m.buffer) == r.m && err == r.err && (err.None? ==> out == r.m.buffer)
      ensures var p := PatchedConfig(text, args, env);
        && (err.None? <==> p.Ok?)
        && (p.Ok? ==> out == p.value)
        && (p.Err? ==> err == Some(Failure(PatchConfig, BadConfig(p.error))))
    {
      ghost var m0 := Machine(files, dirs, journal, text);
      ghost var steps := [PatchConfig];
      assert steps[0..] == steps;

      var cfg := RenderConfig(text, args, env);
      if cfg.Err? {
        err := Some(Failure(PatchConfig, BadConfig(cfg.error)));
        Stop(m0, m0, steps, 0, PatchConfig, err.value, args, env);
        return err, [], Run(m0, err);
      }
      out := cfg.value;
      ghost var next := Machine(files, dirs, journal, out);
      Advance(m0, m0, steps, 0, PatchConfig, next, args, env);
      Finish(m0, next, steps, args, env);
      return None, out, Run(next, None);
    }

    /** install, main.go:98-100: write the patched configuration to the temporary file. */
    method WriteStaged(args: Args, env: Env, out: Bytes) returns (err: Option<InstallError>, ghost r: Run)
      modifies this
      ensures r == Exec(old(State(out)), [WriteConfig], args, env)
      ensures State(r.m.buffer) == r.m && err == r.err
    {
      ghost var m0 := Machine(files, dirs, journal, out);
      ghost var steps := [WriteConfig];
      assert steps[0..] == steps;

      var e := Write(env.tmpConfig, out, WriteConfig in env.faults);
      if e.Some? {
        err := Some(Failure(WriteConfig, e.value));
        Stop(m0, m0, steps, 0, WriteConfig, err.value, args, env);
        return err, Run(m0, err);
      }
      ghost var next := Machine(files, dirs, journal, out);
      Advance(m0, m0, steps, 0, WriteConfig, next, args, env);
      Finish(m0, next, steps, args, env);
      return None, Run(next, None);
    }

    /** install, main.go:77-100: patch the configuration and write it to a temporary file beside it. */
    method StageConfig(args: Args, env: Env, ghost buffer: Bytes) returns (err: Option<InstallError>, ghost r: Run)
      modifies this
      ensures r == Exec(old(State(buffer)), StageConfigSteps, args, env)
      ensures State(r.m.buffer) == r.m && err == r.err
    {
      ghost var m0 := State(buffer);
      assert StageConfigSteps == [CreateTempConfig, OpenConfig] + ([PatchConfig] + [WriteConfig]);
      ExecAppend(m0, [CreateTempConfig, OpenConfig], [PatchConfig] + [WriteConfig], args, env);
      ghost var r1, r2;
      var text, out;
      err, text, r1 := OpenConfigFiles(args, env, buffer);
      if err.Some? { return err, r1; }
      ExecAppend(r1.m, [PatchConfig], [WriteConfig], args, env);
      err, out, r2 := PatchStaged(args, env, text);
      if err.Some? { return err, r2; }
      err, r := WriteStaged(args, env, out);
    }

    /** install, main.go:102-104: rename the staged configuration over the real one. */
    method PublishConfig(args: Args, env: Env, ghost buffer: Bytes) returns (err: Option<InstallError>, ghost r: Run)
      modifies this
      ensures r == Exec(old(State(buffer)), PublishConfigSteps, args, env)
      ensures State(r.m.buffer) == r.m && err == r.err
    {
      ghost var m0 := Machine(files, dirs, journal, buffer);
      ghost var steps := PublishConfigSteps;
      ghost var cur := m0;
      ghost var next: Machine;
      assert steps[0..] == steps;

      var e := Rename(env.tmpConfig, args.criConfig, RenameConfig in env.faults);
      if e.Some? { err := Some(Failure(RenameConfig, e.value)); Stop(m0, cur, steps, 0, RenameConfig, err.value, args, env); return err, Run(cur, err); }
      next := Machine(files, dirs, journal, buffer);
      Advance(m0, cur, steps, 0, RenameConfig, next, args, env);
      cur := next;

      Finish(m0, cur, steps, args, env);
      return None, Run(cur, None);
    }

    /** install, main.go:106-126: ask for a restart of containerd, then take the first of its status or cancellation. */
    method Reload(args: Args, env: Env, ghost buffer: Bytes) returns (err: Option<InstallError>, ghost r: Run)
      modifies this
      ensures r == Exec(old(State(buffer)), ReloadSteps, args, env)
      ensures State(r.m.buffer) == r.m && err == r.err
    {
      ghost var m0 := Machine(files, dirs, journal, buffer);
      ghost var steps := ReloadSteps;
      ghost var cur := m0;
      ghost var next: Machine;
      assert steps[0..] == steps;

      var connect: Option<Reason> := if ConnectBus in env.faults then Some(IoFailure) else None;
      if connect.Some? { err := Some(Failure(ConnectBus, connect.value)); Stop(m0, cur, steps, 0, ConnectBus, err.value, args, env); return err, Run(cur, err); }
      next := Machine(files, dirs, journal, buffer);
      Advance(m0, cur, steps, 0, ConnectBus, next, args, env);
      cur := next;

      var e := RestartUnit(ServiceUnit, RestartJobMode, RequestRestart in env.faults);
      if e.Some? { err := Some(Failure(RequestRestart, e.value)); Stop(m0, cur, steps, 1, RequestRestart, err.value, args, env); return err, Run(cur, err); }
      next := Machine(files, dirs, journal, buffer);
      Advance(m0, cur, steps, 1, RequestRestart, next, args, env);
      cur := next;

      var outcome := ReloadOutcome(env.event);
      if outcome.Some? { err := Some(Failure(AwaitRestart, outcome.value)); Stop(m0, cur, steps, 2, AwaitRestart, err.value, args, env); return err, Run(cur, err); }
      next := Machine(files, dirs, journal, buffer);
      Advance(m0, cur, steps, 2, AwaitRestart, next, args, env);
      cur := next;

      Finish(m0, cur, steps, args, env);
      return None, Run(cur, None);
    }

    /**
     * install: every call in source order, returning at the first failure.
     * The host ends in the state the plan's run describes from its current
     * files, directories and journal.
     */
    method Install(bin: Path, name: string, prefix: Path, criConfig: Path, env: Env) returns (err: Option<InstallError>)
      modifies this
      ensures var r := Exec(old(State([])), Plan, Args(bin, name, prefix, criConfig), env);
        files == r.m.files && dirs == r.m.dirs && journal == r.m.journal && err == r.err
    {
      var args := Args(bin, name, prefix, criConfig);
      ghost var m0 := State([]);
      ghost var r1, r2, r3, r4, r5, r6;
      ghost var s1 := PrepareSteps;
      ghost var s2 := s1 + StageBinarySteps;
      ghost var s3 := s2 + PublishBinarySteps;
      ghost var s4 := s3 + StageConfigSteps;
      ghost var s5 := s4 + PublishConfigSteps;
      ExecAppend(m0, s5, ReloadSteps, args, env);
      ExecAppend(m0, s4, PublishConfigSteps, args, env);
      ExecAppend(m0, s3, StageConfigSteps, args, env);
      ExecAppend(m0, s2, PublishBinarySteps, args, env);
      ExecAppend(m0, s1, StageBinarySteps, args, env);

      err, r1 := Prepare(args, env, []);
      if err.Some? { return; }
      err, r2 := StageBinary(args, env, r1.m.buffer);
      if err.Some? { return; }
      err, r3 := PublishBinary(args, env, r2.m.buffer);
      if err.Some? { return; }
      err, r4 := StageConfig(args, env, r3.m.buffer);
      if err.Some? { return; }
      err, r5 := PublishConfig(args, env, r4.m.buffer);
      if err.Some? { return; }
      err, r6 := Reload(args, env, r5.m.buffer);
    }
  }
}
