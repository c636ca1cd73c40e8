/**
 * What install promises about the host: which files each early return
 * leaves alone, when the whole sequence succeeds and what it then leaves
 * behind, the order of the mutations, and how the reload outcome is
 * decided. Everything here is about the step machine `Installer.Exec`
 * over `Installer.Plan`, which `Installer.Host.Install` is proved to
 * follow.
 */
module InstallProperties {
  import opened Outcomes
  import opened Config
  import opened RuntimeType
  import opened Installer

  /** Run `steps` after `r`, unless `r` already stopped with an error. */
  function Then(r: Run, steps: seq<Step>, args: Args, env: Env): Run {
    if r.err.Some? then r else Exec(r.m, steps, args, env)
  }

  /** install is its six phases one after the other, stopping at the first that fails. */
  lemma PlanInPhases(m: Machine, args: Args, env: Env)
    ensures Exec(m, Plan, args, env)
         == Then(Then(Then(Then(Then(Exec(m, PrepareSteps, args, env),
              StageBinarySteps, args, env), PublishBinarySteps, args, env),
              StageConfigSteps, args, env), PublishConfigSteps, args, env), ReloadSteps, args, env)
  {
    var s1 := PrepareSteps;
    var s2 := s1 + StageBinarySteps;
    var s3 := s2 + PublishBinarySteps;
    var s4 := s3 + StageConfigSteps;
    var s5 := s4 + PublishConfigSteps;
    ExecAppend(m, s5, ReloadSteps, args, env);
    ExecAppend(m, s4, PublishConfigSteps, args, env);
    ExecAppend(m, s3, StageConfigSteps, args, env);
    ExecAppend(m, s2, PublishBinarySteps, args, env);
    ExecAppend(m, s1, StageBinarySteps, args, env);
  }

  /** The files a step may change. */
  function Footprint(s: Step, args: Args, env: Env): set<Path> {
    match s
    case CreateTempBinary => {env.tmpBinary}
    case CopyBinary => {env.tmpBinary}
    case RenameBinary => {env.tmpBinary, Dest(args)}
    case ChmodBinary => {Dest(args)}
    case CreateTempConfig => {env.tmpConfig}
    case WriteConfig => {env.tmpConfig}
    case RenameConfig => {env.tmpConfig, args.criConfig}
    case _ => {}
  }

  /** A step leaves every file outside its footprint alone. */
  lemma StepFrame(m: Machine, s: Step, args: Args, env: Env, p: Path)
    requires p !in Footprint(s, args, env)
    ensures StepOf(m, s, args, env).Ok? ==> Lookup(StepOf(m, s, args, env).value.files, p) == Lookup(m.files, p)
  {
  }

  /** A run leaves every file outside the footprints of its steps alone, wherever it stops. */
  lemma {:induction false} ExecFrame(m: Machine, steps: seq<Step>, args: Args, env: Env, p: Path)
    requires forall s :: s in steps ==> p !in Footprint(s, args, env)
    ensures Lookup(Exec(m, steps, args, env).m.files, p) == Lookup(m.files, p)
    decreases |steps|
  {
    if steps != [] {
      StepFrame(m, steps[0], args, env, p);
      match StepOf(m, steps[0], args, env)
      case Err(_) =>
      case Ok(m') =>
        assert forall s :: s in steps[1..] ==> s in steps;
        ExecFrame(m', steps[1..], args, env, p);
    }
  }

  /** An error comes from one of the steps run. */
  lemma {:induction false} ExecErrStep(m: Machine, steps: seq<Step>, args: Args, env: Env)
    ensures var r := Exec(m, steps, args, env); r.err.Some? ==> r.err.value.at in steps
    decreases |steps|
  {
    if steps != [] {
      match StepOf(m, steps[0], args, env)
      case Err(e) =>
      case Ok(m') =>
        ExecErrStep(m', steps[1..], args, env);
    }
  }

  /**
   * A run of `a + b` that stops on an error from a step outside `b` stops
   * within `a`, in the state `a` leaves.
   */
  lemma StopsWithin(m: Machine, a: seq<Step>, b: seq<Step>, args: Args, env: Env)
    ensures var r := Exec(m, a + b, args, env);
      r.err.Some? && r.err.value.at !in b ==> r == Exec(m, a, args, env)
  {
    ExecAppend(m, a, b, args, env);
    var r := Exec(m, a, args, env);
    if r.err.None? {
      ExecErrStep(r.m, b, args, env);
    }
  }

  /** A run of `a + [s]` that fails leaves the files as `a` leaves them: a failing step changes nothing. */
  lemma FailureKeepsState(m: Machine, a: seq<Step>, s: Step, args: Args, env: Env)
    ensures var r := Exec(m, a + [s], args, env);
      r.err.Some? ==> r.m == Exec(m, a, args, env).m
  {
    ExecAppend(m, a, [s], args, env);
  }

  // ---------------------------------------------------------------------
  // Phase by phase
  // ---------------------------------------------------------------------

  /** main.go:37-48 changes no file; it goes through when the binary exists and no call fails. */
  lemma PrepareEffect(m: Machine, args: Args, env: Env)
    ensures var r := Exec(m, PrepareSteps, args, env);
      && r.m.files == m.files
      && (r.err.None? <==> args.bin in m.files && StatBinary !in env.faults
                           && MakePrefix !in env.faults && MakeTempDir !in env.faults)
      && (r.err.None? ==> r.m.dirs == m.dirs + {args.prefix, env.tmpDir})
      && (r.err.Some? ==> r.err.value.at in PrepareSteps)
  {
  }

  /** main.go:50-67 touches only the temporary binary, which ends up a 0600 copy of the source. */
  lemma StageBinaryEffect(m: Machine, args: Args, env: Env, p: Path)
    requires args.bin in m.files && env.tmpBinary != args.bin
    ensures var r := Exec(m, StageBinarySteps, args, env);
      && r.m.dirs == m.dirs
      && (r.err.None? <==> CreateTempBinary !in env.faults && OpenBinary !in env.faults && CopyBinary !in env.faults)
      && (r.err.None? ==> r.m.files == m.files[env.tmpBinary := File(m.files[args.bin].content, TempFileMode)])
      && (p != env.tmpBinary ==> Lookup(r.m.files, p) == Lookup(m.files, p))
      && (r.err.Some? ==> r.err.value.at in StageBinarySteps)
  {
  }

  /**
   * main.go:69-75: the temporary binary is renamed to the destination and
   * made executable; a failed rename changes nothing, a failed chmod
   * leaves the binary in place with the temporary file's mode.
   */
  lemma PublishBinaryEffect(m: Machine, args: Args, env: Env, p: Path)
    requires env.tmpBinary in m.files && env.tmpBinary != Dest(args)
    ensures var r := Exec(m, PublishBinarySteps, args, env);
      && r.m.dirs == m.dirs
      && (r.err.None? <==> RenameBinary !in env.faults && ChmodBinary !in env.faults)
      && (RenameBinary in env.faults ==> r.m == m)
      && (RenameBinary !in env.faults ==>
            Lookup(r.m.files, Dest(args)) == Some(m.files[env.tmpBinary].(mode :=
              if ChmodBinary in env.faults then m.files[env.tmpBinary].mode else ExecutableMode)))
      && (p != env.tmpBinary && p != Dest(args) ==> Lookup(r.m.files, p) == Lookup(m.files, p))
      && (r.err.None? ==> r.m.files == (m.files - {env.tmpBinary})[Dest(args) := m.files[env.tmpBinary].(mode := ExecutableMode)])
      && (r.err.Some? ==> r.err.value.at in PublishBinarySteps)
  {
  }

  /**
   * main.go:77-100 touches only the temporary configuration file, which
   * ends up holding the patched configuration with mode 0600; it goes
   * through when the configuration exists, decodes and patches, and no
   * call fails.
   */
  lemma StageConfigEffect(m: Machine, args: Args, env: Env, p: Path)
    requires env.tmpConfig != args.criConfig
    ensures var r := Exec(m, StageConfigSteps, args, env);
      && r.m.dirs == m.dirs
      && (r.err.None? <==>
            && CreateTempConfig !in env.faults && OpenConfig !in env.faults && WriteConfig !in env.faults
            && args.criConfig in m.files && PatchedConfig(m.files[args.criConfig].content, args, env).Ok?)
      && (r.err.None? ==>
            r.m.files == m.files[env.tmpConfig := File(PatchedConfig(m.files[args.criConfig].content, args, env).value, TempFileMode)])
      && (p != env.tmpConfig ==> Lookup(r.m.files, p) == Lookup(m.files, p))
      && (r.err.Some? ==> r.err.value.at in StageConfigSteps)
  {
    var a, b := [CreateTempConfig, OpenConfig], [PatchConfig, WriteConfig];
    assert StageConfigSteps == a + b;
    ExecAppend(m, a, b, args, env);
    OpenConfigEffect(m, args, env, p);
    var r1 := Exec(m, a, args, env);
    if r1.err.None? {
      WriteStagedEffect(r1.m, args, env, p);
      var out := PatchedConfig(m.files[args.criConfig].content, args, env);
      if out.Ok? {
        assert m.files[env.tmpConfig := File([], TempFileMode)][env.tmpConfig := File(out.value, TempFileMode)]
            == m.files[env.tmpConfig := File(out.value, TempFileMode)];
      }
    }
  }

  /** main.go:77-90: an empty 0600 file beside the configuration, and the configuration's bytes in hand. */
  lemma OpenConfigEffect(m: Machine, args: Args, env: Env, p: Path)
    requires env.tmpConfig != args.criConfig
    ensures var r := Exec(m, [CreateTempConfig, OpenConfig], args, env);
      && r.m.dirs == m.dirs
      && (r.err.None? <==> CreateTempConfig !in env.faults && OpenConfig !in env.faults && args.criConfig in m.files)
      && (r.err.None? ==>
            r.m.files == m.files[env.tmpConfig := File([], TempFileMode)] && r.m.buffer == m.files[args.criConfig].content)
      && (p != env.tmpConfig ==> Lookup(r.m.files, p) == Lookup(m.files, p))
      && (r.err.Some? ==> r.err.value.at in [CreateTempConfig, OpenConfig])
  {
  }

  /** main.go:92-100: the bytes in hand are patched and written to the 0600 temporary file. */
  lemma WriteStagedEffect(m: Machine, args: Args, env: Env, p: Path)
    requires env.tmpConfig in m.files && m.files[env.tmpConfig].mode == TempFileMode
    ensures var r := Exec(m, [PatchConfig, WriteConfig], args, env);
      && r.m.dirs == m.dirs
      && (r.err.None? <==> WriteConfig !in env.faults && PatchedConfig(m.buffer, args, env).Ok?)
      && (r.err.None? ==> r.m.files == m.files[env.tmpConfig := File(PatchedConfig(m.buffer, args, env).value, TempFileMode)])
      && (p != env.tmpConfig ==> Lookup(r.m.files, p) == Lookup(m.files, p))
      && (r.err.Some? ==> r.err.value.at in [PatchConfig, WriteConfig])
  {
  }

  /** main.go:102-104: the staged file replaces the configuration, or nothing changes. */
  lemma PublishConfigEffect(m: Machine, args: Args, env: Env)
    requires env.tmpConfig in m.files && env.tmpConfig != args.criConfig
    ensures var r := Exec(m, PublishConfigSteps, args, env);
      && (r.err.None? <==> RenameConfig !in env.faults)
      && (r.err.None? ==> r.m.files == (m.files - {env.tmpConfig})[args.criConfig := m.files[env.tmpConfig]] && r.m.dirs == m.dirs)
      && (r.err.Some? ==> r.m == m && r.err.value.at == RenameConfig)
  {
  }

  /** main.go:106-126 changes no file; it goes through when the restart is queued and reports "done". */
  lemma ReloadEffect(m: Machine, args: Args, env: Env)
    ensures var r := Exec(m, ReloadSteps, args, env);
      && r.m.files == m.files && r.m.dirs == m.dirs
      && (r.err.None? <==> ConnectBus !in env.faults && RequestRestart !in env.faults && env.event == Status(DoneStatus))
      && (r.err.Some? ==> r.err.value.at in ReloadSteps)
  {
  }

  // ---------------------------------------------------------------------
  // The whole install
  // ---------------------------------------------------------------------

  /**
   * The temporary names the system picks are distinct from the binary,
   * the destination, the configuration and each other, and the binary is
   * not installed over the configuration.
   */
  predicate Apart(args: Args, env: Env) {
    && env.tmpBinary != args.bin && env.tmpBinary != Dest(args) && env.tmpBinary != args.criConfig
    && env.tmpBinary != env.tmpConfig
    && env.tmpConfig != Dest(args) && env.tmpConfig != args.criConfig
    && Dest(args) != args.criConfig
  }

  /** The steps up to and including the rename of the binary. */
  const BeforeBinaryPublished: seq<Step> := PrepareSteps + StageBinarySteps + [RenameBinary]
  /** The steps that touch the configuration. */
  const ConfigSteps: seq<Step> := StageConfigSteps + PublishConfigSteps

  /** The installed binary: the source's bytes with the given mode. */
  function Installed(files: map<Path, File>, args: Args, mode: nat): Option<File>
    requires args.bin in files
  {
    Some(File(files[args.bin].content, mode))
  }

  /**
   * A run that fails at a step no later than `s` leaves every file outside
   * the footprints of the steps before `s` alone.
   */
  lemma FailureBefore(m: Machine, a: seq<Step>, s: Step, b: seq<Step>, args: Args, env: Env, p: Path)
    requires forall t :: t in a ==> p !in Footprint(t, args, env)
    ensures var r := Exec(m, (a + [s]) + b, args, env);
      r.err.Some? && r.err.value.at !in b ==> Lookup(r.m.files, p) == Lookup(m.files, p)
  {
    StopsWithin(m, a + [s], b, args, env);
    FailureKeepsState(m, a, s, args, env);
    ExecFrame(m, a, args, env, p);
  }

  // ---------------------------------------------------------------------
  // The binary half and the configuration half
  // ---------------------------------------------------------------------

  /** The steps that install the binary (main.go:37-75). */
  const BinarySteps: seq<Step> := PrepareSteps + StageBinarySteps + PublishBinarySteps

  /** install is the binary half, then the configuration half, then the reload. */
  lemma PlanInHalves(m: Machine, args: Args, env: Env)
    ensures Exec(m, Plan, args, env)
         == Then(Then(Exec(m, BinarySteps, args, env), ConfigSteps, args, env), ReloadSteps, args, env)
  {
    assert Plan == (BinarySteps + ConfigSteps) + ReloadSteps;
    ExecAppend(m, BinarySteps + ConfigSteps, ReloadSteps, args, env);
    ExecAppend(m, BinarySteps, ConfigSteps, args, env);
  }

  /**
   * main.go:37-75: the binary half installs the source's bytes at the
   * destination with mode 0755 and moves the temporary file away; a
   * failed chmod leaves them there with mode 0600.
   */
  lemma BinaryHalfEffect(m: Machine, args: Args, env: Env, p: Path)
    requires Apart(args, env)
    ensures var r := Exec(m, BinarySteps, args, env);
      && (r.err.Some? ==> r.err.value.at in BinarySteps)
      && (r.err.None? <==>
            && args.bin in m.files && StatBinary !in env.faults && MakePrefix !in env.faults && MakeTempDir !in env.faults
            && CreateTempBinary !in env.faults && OpenBinary !in env.faults && CopyBinary !in env.faults
            && RenameBinary !in env.faults && ChmodBinary !in env.faults)
      && (r.err.None? ==>
            && r.m.files == (m.files - {env.tmpBinary})[Dest(args) := File(m.files[args.bin].content, ExecutableMode)]
            && r.m.dirs == m.dirs + {args.prefix, env.tmpDir})
      && (r.err.Some? && r.err.value.at == ChmodBinary ==>
            args.bin in m.files && Lookup(r.m.files, Dest(args)) == Some(File(m.files[args.bin].content, TempFileMode)))
      && (p != env.tmpBinary && p != Dest(args) ==> Lookup(r.m.files, p) == Lookup(m.files, p))
  {
    assert BinarySteps == PrepareSteps + (StageBinarySteps + PublishBinarySteps);
    ExecAppend(m, PrepareSteps, StageBinarySteps + PublishBinarySteps, args, env);
    PrepareEffect(m, args, env);
    var r1 := Exec(m, PrepareSteps, args, env);
    if r1.err.None? {
      CopyAndPublishEffect(r1.m, args, env, p);
    }
  }

  /** main.go:50-75: the source's bytes reach the destination through the temporary file. */
  lemma CopyAndPublishEffect(m: Machine, args: Args, env: Env, p: Path)
    requires Apart(args, env) && args.bin in m.files
    ensures var r := Exec(m, StageBinarySteps + PublishBinarySteps, args, env);
      && (r.err.Some? ==> r.err.value.at in StageBinarySteps + PublishBinarySteps)
      && (r.err.None? <==>
            && CreateTempBinary !in env.faults && OpenBinary !in env.faults && CopyBinary !in env.faults
            && RenameBinary !in env.faults && ChmodBinary !in env.faults)
      && (r.err.None? ==>
            && r.m.files == (m.files - {env.tmpBinary})[Dest(args) := File(m.files[args.bin].content, ExecutableMode)]
            && r.m.dirs == m.dirs)
      && (r.err.Some? && r.err.value.at == ChmodBinary ==>
            Lookup(r.m.files, Dest(args)) == Some(File(m.files[args.bin].content, TempFileMode)))
      && (p != env.tmpBinary && p != Dest(args) ==> Lookup(r.m.files, p) == Lookup(m.files, p))
  {
    ExecAppend(m, StageBinarySteps, PublishBinarySteps, args, env);
    StageBinaryEffect(m, args, env, p);
    var r1 := Exec(m, StageBinarySteps, args, env);
    if r1.err.None? {
      PublishBinaryEffect(r1.m, args, env, p);
      var f := File(m.files[args.bin].content, TempFileMode);
      assert (m.files[env.tmpBinary := f] - {env.tmpBinary}) == m.files - {env.tmpBinary};
    }
  }

  /**
   * main.go:77-104: the configuration half replaces the configuration
   * with the patched bytes, mode 0600, and moves the temporary file away;
   * when it fails the configuration is as it was.
   */
  lemma ConfigHalfEffect(m: Machine, args: Args, env: Env, p: Path)
    requires Apart(args, env)
    ensures var r := Exec(m, ConfigSteps, args, env);
      && (r.err.Some? ==> r.err.value.at in ConfigSteps)
      && (r.err.None? <==>
            && CreateTempConfig !in env.faults && OpenConfig !in env.faults && WriteConfig !in env.faults
            && RenameConfig !in env.faults
            && args.criConfig in m.files && PatchedConfig(m.files[args.criConfig].content, args, env).Ok?)
      && (r.err.None? ==>
            && r.m.files == (m.files - {env.tmpConfig})[args.criConfig :=
                 File(PatchedConfig(m.files[args.criConfig].content, args, env).value, TempFileMode)]
            && r.m.dirs == m.dirs)
      && (r.err.Some? ==> Lookup(r.m.files, args.criConfig) == Lookup(m.files, args.criConfig))
      && (p != env.tmpConfig && p != args.criConfig ==> Lookup(r.m.files, p) == Lookup(m.files, p))
  {
    ExecAppend(m, StageConfigSteps, PublishConfigSteps, args, env);
    StageConfigEffect(m, args, env, p);
    StageConfigEffect(m, args, env, args.criConfig);
    var r1 := Exec(m, StageConfigSteps, args, env);
    if r1.err.None? {
      PublishConfigEffect(r1.m, args, env);
      var f := File(PatchedConfig(m.files[args.criConfig].content, args, env).value, TempFileMode);
      assert (m.files[env.tmpConfig := f] - {env.tmpConfig}) == m.files - {env.tmpConfig};
    }
  }

  /** BinaryHalfEffect, seen at one path: the destination, or any path the binary half does not touch. */
  lemma BinaryHalfAt(m: Machine, args: Args, env: Env, p: Path)
    requires Apart(args, env)
    ensures var r := Exec(m, BinarySteps, args, env);
      && (r.err.Some? ==> r.err.value.at in BinarySteps)
      && (r.err.None? ==> args.bin in m.files && Lookup(r.m.files, Dest(args)) == Installed(m.files, args, ExecutableMode))
      && (r.err.Some? && r.err.value.at == ChmodBinary ==>
            args.bin in m.files && Lookup(r.m.files, Dest(args)) == Installed(m.files, args, TempFileMode))
      && (r.err.Some? && r.err.value.at in BeforeBinaryPublished ==>
            Lookup(r.m.files, Dest(args)) == Lookup(m.files, Dest(args)))
      && (p != env.tmpBinary && p != Dest(args) ==> Lookup(r.m.files, p) == Lookup(m.files, p))
  {
    BinaryHalfEffect(m, args, env, p);
    assert BinarySteps == (PrepareSteps + StageBinarySteps + [RenameBinary]) + [ChmodBinary];
    FailureBefore(m, PrepareSteps + StageBinarySteps, RenameBinary, [ChmodBinary], args, env, Dest(args));
  }

  /** ConfigHalfEffect, seen at one path: the configuration, or any path the configuration half does not touch. */
  lemma ConfigHalfAt(m: Machine, args: Args, env: Env, p: Path)
    requires Apart(args, env)
    ensures var r := Exec(m, ConfigSteps, args, env);
      && (r.err.Some? ==> r.err.value.at in ConfigSteps)
      && (r.err.None? ==>
            && args.criConfig in m.files && PatchedConfig(m.files[args.criConfig].content, args, env).Ok?
            && Lookup(r.m.files, args.criConfig)
               == Some(File(PatchedConfig(m.files[args.criConfig].content, args, env).value, TempFileMode)))
      && (r.err.Some? ==> Lookup(r.m.files, args.criConfig) == Lookup(m.files, args.criConfig))
      && (p != env.tmpConfig && p != args.criConfig ==> Lookup(r.m.files, p) == Lookup(m.files, p))
  {
    ConfigHalfEffect(m, args, env, p);
  }

  // ---------------------------------------------------------------------
  // Where install returns, and what it leaves
  // ---------------------------------------------------------------------

  /**
   * What the ends of the binary half (`r1`), the configuration half (`r2`)
   * and the reload (`r3`) leave at the destination and at the
   * configuration, starting from `files`.
   */
  predicate HalvesFacts(files: map<Path, File>, args: Args, env: Env, r1: Run, r2: Run, r3: Run) {
    && (r1.err.Some? ==> r1.err.value.at in BinarySteps && r2 == r1)
    && (r1.err.Some? && r1.err.value.at in BeforeBinaryPublished ==>
          Lookup(r1.m.files, Dest(args)) == Lookup(files, Dest(args)))
    && (r1.err.Some? && r1.err.value.at == ChmodBinary ==>
          args.bin in files && Lookup(r1.m.files, Dest(args)) == Installed(files, args, TempFileMode))
    && (r1.err.None? ==> args.bin in files && Lookup(r1.m.files, Dest(args)) == Installed(files, args, ExecutableMode))
    && Lookup(r1.m.files, args.criConfig) == Lookup(files, args.criConfig)
    && (r1.err.None? ==> Lookup(r2.m.files, Dest(args)) == Lookup(r1.m.files, Dest(args)))
    && (r1.err.None? && r2.err.Some? ==>
          r2.err.value.at in ConfigSteps && Lookup(r2.m.files, args.criConfig) == Lookup(r1.m.files, args.criConfig))
    && (r1.err.None? && r2.err.None? ==>
          && args.criConfig in r1.m.files && PatchedConfig(r1.m.files[args.criConfig].content, args, env).Ok?
          && Lookup(r2.m.files, args.criConfig)
             == Some(File(PatchedConfig(r1.m.files[args.criConfig].content, args, env).value, TempFileMode)))
    && (r2.err.Some? ==> r3 == r2)
    && (r2.err.None? ==> r3.m.files == r2.m.files && (r3.err.Some? ==> r3.err.value.at in ReloadSteps))
  }

  /** install's run is the end of its reload, and the halves before it behave as HalvesFacts says. */
  lemma HalfRuns(files: map<Path, File>, dirs: set<Path>, args: Args, env: Env) returns (r1: Run, r2: Run, r3: Run)
    requires Apart(args, env)
    ensures InstallSpec(files, dirs, args, env) == r3
    ensures HalvesFacts(files, args, env, r1, r2, r3)
  {
    var m0 := Machine(files, dirs, [], []);
    PlanInHalves(m0, args, env);
    BinaryHalfAt(m0, args, env, args.criConfig);
    r1 := Exec(m0, BinarySteps, args, env);
    r2 := Then(r1, ConfigSteps, args, env);
    r3 := Then(r2, ReloadSteps, args, env);
    if r1.err.None? {
      ConfigHalfAt(r1.m, args, env, Dest(args));
      if r2.err.None? {
        ReloadEffect(r2.m, args, env);
      }
    }
  }

  /** Which half a step belongs to. */
  lemma StepHalves(s: Step)
    ensures s in BeforeBinaryPublished ==> s in BinarySteps && s != ChmodBinary
    ensures s in BinarySteps ==> s !in ConfigSteps && s !in ReloadSteps
    ensures s in ConfigSteps ==> s !in ReloadSteps
    ensures s in BinarySteps ==> s in BeforeBinaryPublished || s == ChmodBinary
  {
  }

  /** The ends of the halves when install fails up to the binary's rename. */
  lemma EarlyOutcome(files: map<Path, File>, args: Args, env: Env, r1: Run, r2: Run, r3: Run)
    requires HalvesFacts(files, args, env, r1, r2, r3)
    ensures r3.err.Some? && r3.err.value.at in BeforeBinaryPublished ==>
      Lookup(r3.m.files, Dest(args)) == Lookup(files, Dest(args))
      && Lookup(r3.m.files, args.criConfig) == Lookup(files, args.criConfig)
  {
    if r3.err.Some? {
      StepHalves(r3.err.value.at);
    }
  }

  /** The ends of the halves when the chmod fails. */
  lemma ChmodOutcome(files: map<Path, File>, args: Args, env: Env, r1: Run, r2: Run, r3: Run)
    requires HalvesFacts(files, args, env, r1, r2, r3)
    ensures r3.err.Some? && r3.err.value.at == ChmodBinary ==>
      && args.bin in files && Lookup(r3.m.files, Dest(args)) == Installed(files, args, TempFileMode)
      && Lookup(r3.m.files, args.criConfig) == Lookup(files, args.criConfig)
  {
    StepHalves(ChmodBinary);
  }

  /** The ends of the halves when a configuration step fails. */
  lemma ConfigOutcome(files: map<Path, File>, args: Args, env: Env, r1: Run, r2: Run, r3: Run)
    requires HalvesFacts(files, args, env, r1, r2, r3)
    ensures r3.err.Some? && r3.err.value.at in ConfigSteps ==>
      && args.bin in files && Lookup(r3.m.files, Dest(args)) == Installed(files, args, ExecutableMode)
      && Lookup(r3.m.files, args.criConfig) == Lookup(files, args.criConfig)
  {
    if r3.err.Some? {
      StepHalves(r3.err.value.at);
    }
  }

  /** The ends of the halves once the configuration half went through. */
  lemma PublishedOutcome(files: map<Path, File>, args: Args, env: Env, r1: Run, r2: Run, r3: Run)
    requires HalvesFacts(files, args, env, r1, r2, r3)
    ensures r3.err.None? || r3.err.value.at in ReloadSteps ==>
      && args.bin in files && Lookup(r3.m.files, Dest(args)) == Installed(files, args, ExecutableMode)
      && args.criConfig in files && PatchedConfig(files[args.criConfig].content, args, env).Ok?
      && Lookup(r3.m.files, args.criConfig)
         == Some(File(PatchedConfig(files[args.criConfig].content, args, env).value, TempFileMode))
  {
    if r3.err.Some? {
      StepHalves(r3.err.value.at);
    }
    if r1.err.None? && r2.err.None? {
      assert r1.m.files[args.criConfig] == files[args.criConfig];
    }
  }

  /**
   * A failure up to and including the rename of the binary (main.go:37-71)
   * leaves the destination binary and the configuration as they were.
   */
  lemma EarlyFailureKeepsDestinations(files: map<Path, File>, dirs: set<Path>, args: Args, env: Env)
    requires Apart(args, env)
    ensures var r := InstallSpec(files, dirs, args, env);
      r.err.Some? && r.err.value.at in BeforeBinaryPublished ==>
        Lookup(r.m.files, Dest(args)) == Lookup(files, Dest(args))
        && Lookup(r.m.files, args.criConfig) == Lookup(files, args.criConfig)
  {
    var r1, r2, r3 := HalfRuns(files, dirs, args, env);
    EarlyOutcome(files, args, env, r1, r2, r3);
  }

  /**
   * A failed chmod (main.go:73-75) leaves the source's bytes at the
   * destination with the temporary file's mode 0600, and the
   * configuration as it was.
   */
  lemma ChmodFailureKeepsConfig(files: map<Path, File>, dirs: set<Path>, args: Args, env: Env)
    requires Apart(args, env)
    ensures var r := InstallSpec(files, dirs, args, env);
      r.err.Some? && r.err.value.at == ChmodBinary ==>
        && args.bin in files && Lookup(r.m.files, Dest(args)) == Installed(files, args, TempFileMode)
        && Lookup(r.m.files, args.criConfig) == Lookup(files, args.criConfig)
  {
    var r1, r2, r3 := HalfRuns(files, dirs, args, env);
    ChmodOutcome(files, args, env, r1, r2, r3);
  }

  /**
   * A failure while creating, opening, patching, writing or renaming the
   * configuration (main.go:77-104) leaves the configuration as it was,
   * with the binary already installed with mode 0755.
   */
  lemma ConfigFailureKeepsConfig(files: map<Path, File>, dirs: set<Path>, args: Args, env: Env)
    requires Apart(args, env)
    ensures var r := InstallSpec(files, dirs, args, env);
      r.err.Some? && r.err.value.at in ConfigSteps ==>
        && args.bin in files && Lookup(r.m.files, Dest(args)) == Installed(files, args, ExecutableMode)
        && Lookup(r.m.files, args.criConfig) == Lookup(files, args.criConfig)
  {
    var r1, r2, r3 := HalfRuns(files, dirs, args, env);
    ConfigOutcome(files, args, env, r1, r2, r3);
  }

  /**
   * Once the configuration has been renamed into place (main.go:102), the
   * binary is installed with mode 0755 and the configuration holds the
   * patched bytes with mode 0600, whatever the reload then reports.
   */
  lemma ConfigPublished(files: map<Path, File>, dirs: set<Path>, args: Args, env: Env)
    requires Apart(args, env)
    ensures var r := InstallSpec(files, dirs, args, env);
      r.err.None? || r.err.value.at in ReloadSteps ==>
        && args.bin in files && Lookup(r.m.files, Dest(args)) == Installed(files, args, ExecutableMode)
        && args.criConfig in files && PatchedConfig(files[args.criConfig].content, args, env).Ok?
        && Lookup(r.m.files, args.criConfig)
           == Some(File(PatchedConfig(files[args.criConfig].content, args, env).value, TempFileMode))
  {
    var r1, r2, r3 := HalfRuns(files, dirs, args, env);
    PublishedOutcome(files, args, env, r1, r2, r3);
  }

  /**
   * The configuration is never rewritten unless the binary is already in
   * place with mode 0755, and once it is rewritten install returns only
   * from the reload.
   */
  lemma ConfigChangesOnlyAfterBinary(files: map<Path, File>, dirs: set<Path>, args: Args, env: Env)
    requires Apart(args, env)
    ensures var r := InstallSpec(files, dirs, args, env);
      Lookup(r.m.files, args.criConfig) != Lookup(files, args.criConfig) ==>
        && args.bin in files && Lookup(r.m.files, Dest(args)) == Installed(files, args, ExecutableMode)
        && (r.err.None? || r.err.value.at in ReloadSteps)
  {
    var r1, r2, r3 := HalfRuns(files, dirs, args, env);
    EarlyOutcome(files, args, env, r1, r2, r3);
    ChmodOutcome(files, args, env, r1, r2, r3);
    ConfigOutcome(files, args, env, r1, r2, r3);
    PublishedOutcome(files, args, env, r1, r2, r3);
    if r3.err.Some? {
      StepHalves(r3.err.value.at);
      assert r3.err.value.at in BinarySteps || r3.err.value.at in ConfigSteps || r3.err.value.at in ReloadSteps;
    }
  }

  // ---------------------------------------------------------------------
  // Success
  // ---------------------------------------------------------------------

  /** The steps that are operating-system or service-manager calls, and can fail on their own. */
  const OsCalls: set<Step> := {
    StatBinary, MakePrefix, MakeTempDir, CreateTempBinary, OpenBinary, CopyBinary, RenameBinary, ChmodBinary,
    CreateTempConfig, OpenConfig, WriteConfig, RenameConfig, ConnectBus, RequestRestart }

  /**
   * Everything install needs: the binary and the configuration exist, no
   * call fails, the configuration decodes and patches, and containerd's
   * restart job reports "done".
   */
  predicate Ready(files: map<Path, File>, args: Args, env: Env) {
    && args.bin in files && args.criConfig in files
    && env.faults !! OsCalls
    && PatchedConfig(files[args.criConfig].content, args, env).Ok?
    && env.event == Status(DoneStatus)
  }

  /** What each half does to the whole file map, and when it goes through. */
  predicate ExactFacts(files: map<Path, File>, dirs: set<Path>, args: Args, env: Env, r1: Run, r2: Run, r3: Run) {
    && (r1.err.Some? ==> r2 == r1)
    && (r1.err.None? <==>
          && args.bin in files && StatBinary !in env.faults && MakePrefix !in env.faults && MakeTempDir !in env.faults
          && CreateTempBinary !in env.faults && OpenBinary !in env.faults && CopyBinary !in env.faults
          && RenameBinary !in env.faults && ChmodBinary !in env.faults)
    && (r1.err.None? ==>
          && r1.m.files == (files - {env.tmpBinary})[Dest(args) := File(files[args.bin].content, ExecutableMode)]
          && r1.m.dirs == dirs + {args.prefix, env.tmpDir})
    && (r1.err.None? ==>
          (r2.err.None? <==>
             && CreateTempConfig !in env.faults && OpenConfig !in env.faults && WriteConfig !in env.faults
             && RenameConfig !in env.faults
             && args.criConfig in r1.m.files && PatchedConfig(r1.m.files[args.criConfig].content, args, env).Ok?))
    && (r1.err.None? && r2.err.None? ==>
          && r2.m.files == (r1.m.files - {env.tmpConfig})[args.criConfig :=
               File(PatchedConfig(r1.m.files[args.criConfig].content, args, env).value, TempFileMode)]
          && r2.m.dirs == r1.m.dirs)
    && (r2.err.Some? ==> r3 == r2)
    && (r2.err.None? ==>
          && r3.m.files == r2.m.files && r3.m.dirs == r2.m.dirs
          && (r3.err.None? <==> ConnectBus !in env.faults && RequestRestart !in env.faults && env.event == Status(DoneStatus)))
  }

  /** install's run is the end of its reload, and the halves before it behave as ExactFacts says. */
  lemma ExactRuns(files: map<Path, File>, dirs: set<Path>, args: Args, env: Env) returns (r1: Run, r2: Run, r3: Run)
    requires Apart(args, env)
    ensures InstallSpec(files, dirs, args, env) == r3
    ensures ExactFacts(files, dirs, args, env, r1, r2, r3)
  {
    var m0 := Machine(files, dirs, [], []);
    PlanInHalves(m0, args, env);
    BinaryHalfEffect(m0, args, env, args.criConfig);
    r1 := Exec(m0, BinarySteps, args, env);
    r2 := Then(r1, ConfigSteps, args, env);
    r3 := Then(r2, ReloadSteps, args, env);
    if r1.err.None? {
      ConfigHalfEffect(r1.m, args, env, Dest(args));
      if r2.err.None? {
        ReloadEffect(r2.m, args, env);
      }
    }
  }

  /** The fourteen calls of OsCalls, one by one. */
  lemma NoOsFault(env: Env)
    ensures env.faults !! OsCalls <==>
      && StatBinary !in env.faults && MakePrefix !in env.faults && MakeTempDir !in env.faults
      && CreateTempBinary !in env.faults && OpenBinary !in env.faults && CopyBinary !in env.faults
      && RenameBinary !in env.faults && ChmodBinary !in env.faults
      && CreateTempConfig !in env.faults && OpenConfig !in env.faults && WriteConfig !in env.faults
      && RenameConfig !in env.faults && ConnectBus !in env.faults && RequestRestart !in env.faults
  {
  }

  /**
   * install returns nil exactly when the binary and the configuration
   * exist, no call fails, the configuration decodes and patches, and the
   * restart reports "done" (main.go:36-129).
   */
  lemma InstallSucceedsIff(files: map<Path, File>, dirs: set<Path>, args: Args, env: Env)
    requires Apart(args, env)
    ensures InstallSpec(files, dirs, args, env).err.None? <==> Ready(files, args, env)
  {
    var r1, r2, r3 := ExactRuns(files, dirs, args, env);
    NoOsFault(env);
    SucceedsIffOutcome(files, dirs, args, env, r1, r2, r3);
  }

  /** The case analysis behind InstallSucceedsIff. */
  lemma SucceedsIffOutcome(files: map<Path, File>, dirs: set<Path>, args: Args, env: Env, r1: Run, r2: Run, r3: Run)
    requires Apart(args, env) && ExactFacts(files, dirs, args, env, r1, r2, r3)
    ensures r3.err.None? <==>
      && args.bin in files && args.criConfig in files
      && StatBinary !in env.faults && MakePrefix !in env.faults && MakeTempDir !in env.faults
      && CreateTempBinary !in env.faults && OpenBinary !in env.faults && CopyBinary !in env.faults
      && RenameBinary !in env.faults && ChmodBinary !in env.faults
      && CreateTempConfig !in env.faults && OpenConfig !in env.faults && WriteConfig !in env.faults
      && RenameConfig !in env.faults && ConnectBus !in env.faults && RequestRestart !in env.faults
      && PatchedConfig(files[args.criConfig].content, args, env).Ok?
      && env.event == Status(DoneStatus)
  {
    if r1.err.None? {
      assert args.criConfig in r1.m.files <==> args.criConfig in files;
      if args.criConfig in files {
        assert r1.m.files[args.criConfig] == files[args.criConfig];
      }
    }
  }

  /**
   * After a successful install the host holds the source's bytes at the
   * destination with mode 0755 and the patched configuration with mode
   * 0600; both temporary files are gone, every other file is as it was,
   * and the install directory exists. The temporary directory is still
   * listed, because the deferred cleanup that removes it is not modelled.
   */
  lemma InstallSuccessState(files: map<Path, File>, dirs: set<Path>, args: Args, env: Env)
    requires Apart(args, env) && Ready(files, args, env)
    ensures var r := InstallSpec(files, dirs, args, env);
      && r.err.None?
      && r.m.files == (files - {env.tmpBinary, env.tmpConfig})
           [Dest(args) := File(files[args.bin].content, ExecutableMode)]
           [args.criConfig := File(PatchedConfig(files[args.criConfig].content, args, env).value, TempFileMode)]
      && r.m.dirs == dirs + {args.prefix, env.tmpDir}
  {
    var r1, r2, r3 := ExactRuns(files, dirs, args, env);
    NoOsFault(env);
    SuccessOutcome(files, dirs, args, env, r1, r2, r3);
  }

  /** The map arithmetic behind InstallSuccessState. */
  lemma SuccessOutcome(files: map<Path, File>, dirs: set<Path>, args: Args, env: Env, r1: Run, r2: Run, r3: Run)
    requires Apart(args, env) && Ready(files, args, env) && ExactFacts(files, dirs, args, env, r1, r2, r3)
    requires env.faults !! OsCalls <==>
      && StatBinary !in env.faults && MakePrefix !in env.faults && MakeTempDir !in env.faults
      && CreateTempBinary !in env.faults && OpenBinary !in env.faults && CopyBinary !in env.faults
      && RenameBinary !in env.faults && ChmodBinary !in env.faults
      && CreateTempConfig !in env.faults && OpenConfig !in env.faults && WriteConfig !in env.faults
      && RenameConfig !in env.faults && ConnectBus !in env.faults && RequestRestart !in env.faults
    ensures && r3.err.None?
      && r3.m.files == (files - {env.tmpBinary, env.tmpConfig})
           [Dest(args) := File(files[args.bin].content, ExecutableMode)]
           [args.criConfig := File(PatchedConfig(files[args.criConfig].content, args, env).value, TempFileMode)]
      && r3.m.dirs == dirs + {args.prefix, env.tmpDir}
  {
    var bin := File(files[args.bin].content, ExecutableMode);
    var f1 := (files - {env.tmpBinary})[Dest(args) := bin];
    assert f1[args.criConfig] == files[args.criConfig];
    var cfg := File(PatchedConfig(files[args.criConfig].content, args, env).value, TempFileMode);
    assert (f1 - {env.tmpConfig})[args.criConfig := cfg]
        == (files - {env.tmpBinary, env.tmpConfig})[Dest(args) := bin][args.criConfig := cfg];
  }

  // ---------------------------------------------------------------------
  // What install touches
  // ---------------------------------------------------------------------

  /** Every step's footprint lies among the two temporary files and the two destinations. */
  lemma FootprintBound(s: Step, args: Args, env: Env, p: Path)
    requires p != env.tmpBinary && p != env.tmpConfig && p != Dest(args) && p != args.criConfig
    ensures p !in Footprint(s, args, env)
  {
  }

  /**
   * install changes no file other than its two temporary files, the
   * installed shim and the configuration, wherever it stops.
   */
  lemma InstallTouchesOnly(files: map<Path, File>, dirs: set<Path>, args: Args, env: Env, p: Path)
    requires p != env.tmpBinary && p != env.tmpConfig && p != Dest(args) && p != args.criConfig
    ensures Lookup(InstallSpec(files, dirs, args, env).m.files, p) == Lookup(files, p)
  {
    forall s | s in Plan
      ensures p !in Footprint(s, args, env)
    {
      FootprintBound(s, args, env, p);
    }
    ExecFrame(Machine(files, dirs, [], []), Plan, args, env, p);
  }

  // ---------------------------------------------------------------------
  // The journal
  // ---------------------------------------------------------------------

  /** The mutation a step records when it goes through, if any. */
  function EventOf(s: Step, args: Args, env: Env): seq<Event> {
    match s
    case MakePrefix => [MadeDir(args.prefix)]
    case MakeTempDir => [MadeDir(env.tmpDir)]
    case CreateTempBinary => [Created(env.tmpBinary)]
    case CopyBinary => [Wrote(env.tmpBinary)]
    case RenameBinary => [Renamed(env.tmpBinary, Dest(args))]
    case ChmodBinary => [Chmodded(Dest(args), ExecutableMode)]
    case CreateTempConfig => [Created(env.tmpConfig)]
    case WriteConfig => [Wrote(env.tmpConfig)]
    case RenameConfig => [Renamed(env.tmpConfig, args.criConfig)]
    case RequestRestart => [RestartRequested(ServiceUnit, RestartJobMode)]
    case _ => []
  }

  /** The mutations of a run of `steps` that fails nowhere, in order. */
  function EventsOf(steps: seq<Step>, args: Args, env: Env): seq<Event>
    decreases |steps|
  {
    if steps == [] then [] else EventOf(steps[0], args, env) + EventsOf(steps[1..], args, env)
  }

  /** A step that goes through appends its own event to the journal and nothing else. */
  lemma StepJournal(m: Machine, s: Step, args: Args, env: Env)
    ensures StepOf(m, s, args, env).Ok? ==> StepOf(m, s, args, env).value.journal == m.journal + EventOf(s, args, env)
  {
  }

  /**
   * A run only appends to the journal, what it appends is a prefix of the
   * events of its steps, and all of them when it goes through.
   */
  lemma {:induction false} ExecJournal(m: Machine, steps: seq<Step>, args: Args, env: Env)
    ensures var r := Exec(m, steps, args, env);
      && m.journal <= r.m.journal
      && r.m.journal[|m.journal|..] <= EventsOf(steps, args, env)
      && (r.err.None? ==> r.m.journal == m.journal + EventsOf(steps, args, env))
    decreases |steps|
  {
    if steps != [] {
      var st := StepOf(m, steps[0], args, env);
      StepJournal(m, steps[0], args, env);
      if st.Ok? {
        var m' := st.value;
        var ev := EventOf(steps[0], args, env);
        ExecJournal(m', steps[1..], args, env);
        var j := Exec(m', steps[1..], args, env).m.journal;
        assert Exec(m, steps, args, env).m.journal == j;
        assert j[|m.journal|..] == ev + j[|m'.journal|..];
        assert EventsOf(steps, args, env) == ev + EventsOf(steps[1..], args, env);
      }
    }
  }

  /** The events of a run of `a` then `b`. */
  lemma {:induction false} EventsOfAppend(a: seq<Step>, b: seq<Step>, args: Args, env: Env)
    ensures EventsOf(a + b, args, env) == EventsOf(a, args, env) + EventsOf(b, args, env)
    decreases |a|
  {
    if a != [] {
      assert (a + b)[0] == a[0];
      assert (a + b)[1..] == a[1..] + b;
      EventsOfAppend(a[1..], b, args, env);
      var e := EventOf(a[0], args, env);
      assert EventsOf(a + b, args, env) == e + EventsOf(a[1..] + b, args, env);
      assert EventsOf(a, args, env) == e + EventsOf(a[1..], args, env);
    } else {
      assert a + b == b;
    }
  }

  /** The mutations of a complete install, in the order main.go:36-116 performs them. */
  function FullJournal(args: Args, env: Env): seq<Event> {
    [ MadeDir(args.prefix), MadeDir(env.tmpDir),
      Created(env.tmpBinary), Wrote(env.tmpBinary),
      Renamed(env.tmpBinary, Dest(args)), Chmodded(Dest(args), ExecutableMode),
      Created(env.tmpConfig), Wrote(env.tmpConfig), Renamed(env.tmpConfig, args.criConfig),
      RestartRequested(ServiceUnit, RestartJobMode) ]
  }

  /** The events of each phase. */
  lemma PrepareEvents(args: Args, env: Env)
    ensures EventsOf(PrepareSteps, args, env) == [MadeDir(args.prefix), MadeDir(env.tmpDir)]
  {
  }

  lemma StageBinaryEvents(args: Args, env: Env)
    ensures EventsOf(StageBinarySteps, args, env) == [Created(env.tmpBinary), Wrote(env.tmpBinary)]
  {
  }

  lemma PublishBinaryEvents(args: Args, env: Env)
    ensures EventsOf(PublishBinarySteps, args, env)
         == [Renamed(env.tmpBinary, Dest(args)), Chmodded(Dest(args), ExecutableMode)]
  {
  }

  lemma StageConfigEvents(args: Args, env: Env)
    ensures EventsOf(StageConfigSteps, args, env) == [Created(env.tmpConfig), Wrote(env.tmpConfig)]
  {
  }

  lemma PublishConfigEvents(args: Args, env: Env)
    ensures EventsOf(PublishConfigSteps, args, env) == [Renamed(env.tmpConfig, args.criConfig)]
  {
  }

  lemma ReloadEvents(args: Args, env: Env)
    ensures EventsOf(ReloadSteps, args, env) == [RestartRequested(ServiceUnit, RestartJobMode)]
  {
  }

  /** The events of the binary half. */
  lemma BinaryEvents(args: Args, env: Env)
    ensures EventsOf(BinarySteps, args, env)
         == [ MadeDir(args.prefix), MadeDir(env.tmpDir), Created(env.tmpBinary), Wrote(env.tmpBinary),
              Renamed(env.tmpBinary, Dest(args)), Chmodded(Dest(args), ExecutableMode) ]
  {
    EventsOfAppend(PrepareSteps + StageBinarySteps, PublishBinarySteps, args, env);
    EventsOfAppend(PrepareSteps, StageBinarySteps, args, env);
    PrepareEvents(args, env);
    StageBinaryEvents(args, env);
    PublishBinaryEvents(args, env);
  }

  /** The events of the configuration half and the reload. */
  lemma ConfigAndReloadEvents(args: Args, env: Env)
    ensures EventsOf(ConfigSteps + ReloadSteps, args, env)
         == [ Created(env.tmpConfig), Wrote(env.tmpConfig), Renamed(env.tmpConfig, args.criConfig),
              RestartRequested(ServiceUnit, RestartJobMode) ]
  {
    EventsOfAppend(ConfigSteps, ReloadSteps, args, env);
    EventsOfAppend(StageConfigSteps, PublishConfigSteps, args, env);
    StageConfigEvents(args, env);
    PublishConfigEvents(args, env);
    ReloadEvents(args, env);
  }

  /** The events of the whole plan. */
  lemma PlanEvents(args: Args, env: Env)
    ensures EventsOf(Plan, args, env) == FullJournal(args, env)
  {
    assert Plan == BinarySteps + (ConfigSteps + ReloadSteps);
    EventsOfAppend(BinarySteps, ConfigSteps + ReloadSteps, args, env);
    BinaryEvents(args, env);
    ConfigAndReloadEvents(args, env);
  }

  /**
   * Whatever happens, the host sees a prefix of the complete sequence of
   * mutations, and all of it when install succeeds: the binary is renamed
   * and made executable before the configuration is touched, and the
   * restart is requested last.
   */
  lemma InstallJournal(files: map<Path, File>, dirs: set<Path>, args: Args, env: Env)
    ensures var r := InstallSpec(files, dirs, args, env);
      && r.m.journal <= FullJournal(args, env)
      && (r.err.None? ==> r.m.journal == FullJournal(args, env))
  {
    var m0 := Machine(files, dirs, [], []);
    ExecJournal(m0, Plan, args, env);
    PlanEvents(args, env);
    var r := Exec(m0, Plan, args, env);
    assert r.m.journal[|m0.journal|..] == r.m.journal;
  }

  // ---------------------------------------------------------------------
  // The reload outcome
  // ---------------------------------------------------------------------

  /** The plan up to and including the restart request. */
  const UpToRestart: seq<Step> := BinarySteps + ConfigSteps + [ConnectBus, RequestRestart]

  /** The plan is UpToRestart followed by the wait for the job. */
  lemma PlanEndsWithWait()
    ensures Plan == UpToRestart + [AwaitRestart]
  {
  }

  /** A run of `a + [s]` continues from the run of `a` with `s`. */
  lemma LastStep(m: Machine, a: seq<Step>, s: Step, args: Args, env: Env)
    ensures var q := Exec(m, a, args, env);
      Exec(m, a + [s], args, env) == (if q.err.Some? then q else Exec(q.m, [s], args, env))
  {
    ExecAppend(m, a, [s], args, env);
  }

  /** Once the restart has been requested, the last mutation is that request. */
  lemma RestartRequestedLast(m: Machine, args: Args, env: Env)
    ensures var pre := Exec(m, UpToRestart, args, env);
      pre.err.None? ==> pre.m.journal != [] && pre.m.journal[|pre.m.journal| - 1] == RestartRequested(ServiceUnit, RestartJobMode)
  {
    assert UpToRestart == (BinarySteps + ConfigSteps + [ConnectBus]) + [RequestRestart];
    LastStep(m, BinarySteps + ConfigSteps + [ConnectBus], RequestRestart, args, env);
  }

  /**
   * The final select. Once the restart has been requested, install changes
   * nothing more: it succeeds exactly when the job reports "done", returns
   * an error carrying any other status, and the cancellation error when
   * cancellation comes first. install only fails waiting for the job after
   * the restart has been requested.
   */
  lemma ReloadDecides(files: map<Path, File>, dirs: set<Path>, args: Args, env: Env)
    ensures var pre := Exec(Machine(files, dirs, [], []), UpToRestart, args, env);
      var r := InstallSpec(files, dirs, args, env);
      && (r.err.Some? && r.err.value.at == AwaitRestart ==> pre.err.None?)
      && (pre.err.None? ==>
            && r.m == pre.m
            && pre.m.journal != []
            && pre.m.journal[|pre.m.journal| - 1] == RestartRequested(ServiceUnit, RestartJobMode)
            && (r.err.None? <==> env.event == Status(DoneStatus))
            && (env.event.Cancelled? ==> r.err == Some(Failure(AwaitRestart, ContextCancelled)))
            && (env.event.Status? && env.event.status != DoneStatus ==>
                  r.err == Some(Failure(AwaitRestart, UnexpectedStatus(env.event.status)))))
  {
    var m0 := Machine(files, dirs, [], []);
    PlanEndsWithWait();
    LastStep(m0, UpToRestart, AwaitRestart, args, env);
    ExecErrStep(m0, UpToRestart, args, env);
    RestartRequestedLast(m0, args, env);
  }
}
