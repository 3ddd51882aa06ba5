/** The main window of System Sentinel with its widgets reduced to the
    state its handlers change: whether the run button is enabled, whether
    the progress bar is shown, the three module check boxes, the log text
    field (one entry per `append`), the child process, and what goes to the
    message boxes and the diagnostic logger. Whether a file exists, the
    base directory of the resources, the output chunks of the child and its
    exit code are inputs. */
module SystemSentinelGui {
  import opened TextUtil

  // ---------------------------------------------------------------------
  // resource_path

  /** `os.path.join(base, relative)` with POSIX rules. */
  function PathJoin(base: string, relative: string): string {
    if |relative| > 0 && relative[0] == '/' then relative
    else if base == "" || base[|base| - 1] == '/' then base + relative
    else base + "/" + relative
  }

  /** The joined path always ends with `relative`. An absolute `relative`
      replaces `base`; otherwise the path starts with `base` and a `/` is
      put between the two exactly when `base` is non-empty and does not
      already end with one. */
  lemma PathJoinShape(base: string, relative: string)
    ensures var path := PathJoin(base, relative);
      && |relative| <= |path| && path[|path| - |relative|..] == relative
      && (|relative| > 0 && relative[0] == '/' ==> path == relative)
      && (!(|relative| > 0 && relative[0] == '/') ==>
            && (|path| == |base| + |relative| || |path| == |base| + 1 + |relative|)
            && path[..|base|] == base
            && (|path| == |base| + |relative| <==> base == "" || base[|base| - 1] == '/')
            && (|path| == |base| + 1 + |relative| ==> path[|base|] == '/'))
  {
  }

  datatype Level = Debug | Info | Warning | Error

  /** One record sent to the diagnostic logger. */
  datatype Diagnostic = Diagnostic(level: Level, message: string)

  /** What `resource_path` gives back and what it logs. */
  datatype Resolved = Resolved(path: string, diagnostic: Option<Diagnostic>)

  /** `resource_path(relative)` under resource root `base`: the joined path
      whether or not the file exists; a missing file only adds an error
      record naming the path. */
  function ResourcePath(base: string, relative: string, fileExists: bool): (r: Resolved)
    ensures r.path == PathJoin(base, relative)
    ensures r.diagnostic.Some? <==> !fileExists
    ensures r.diagnostic.Some? ==> r.diagnostic.value == MissingResourceRecord(r.path)
  {
    var fullPath := PathJoin(base, relative);
    Resolved(fullPath, if fileExists then None else Some(MissingResourceRecord(fullPath)))
  }

  /** The path a resource resolves to does not depend on whether it exists. */
  lemma ResourcePathIgnoresExistence(base: string, relative: string)
    ensures ResourcePath(base, relative, true).path == ResourcePath(base, relative, false).path
  {
  }

  // ---------------------------------------------------------------------
  // MainWindow

  /** The states of `QProcess` that matter here; `Starting` is folded into
      `Running`, since the window only ever asks whether it is `NotRunning`. */
  datatype ProcessState = NotRunning | Running

  /** The style sheet colour of a module check box. */
  datatype Style = Plain | Green | Red

  datatype CheckBox = CheckBox(checked: bool, style: Style)

  /** A 32-bit exit status, as `QProcess.exitCode()` reports it. */
  newtype int32 = x: int | -0x8000_0000 <= x < 0x8000_0000

  const ScriptName: string := "SystemSentinel.ps1"
  const IconName: string := "SystemSentinel.ico"
  /** The keys of the window's module dictionary. */
  datatype Module = ModuleA | ModuleB | ModuleC {
    /** The dictionary key, which is also the check box's label. */
    function Label(): (name: string)
      ensures |name| == 8 && name[..7] == "Module "
      ensures name[7] == 'A' <==> this == ModuleA
      ensures name[7] == 'B' <==> this == ModuleB
      ensures name[7] == 'C' <==> this == ModuleC
    {
      match this
      case ModuleA => "Module A"
      case ModuleB => "Module B"
      case ModuleC => "Module C"
    }
  }

  /** Different modules have different labels, so the dictionary holds
      three entries. */
  lemma LabelsDistinct(a: Module, b: Module)
    ensures a.Label() == b.Label() ==> a == b
  {
    if a.Label() == b.Label() {
      assert a.Label()[7] == b.Label()[7];
    }
  }
  const Unchecked: CheckBox := CheckBox(false, Plain)
  const StartingMessage: string := "Starting System Sentinel..."
  const SuccessMessage: string := "Module finished successfully."
  const FailureMessage: string := "Module encountered errors."

  /** The message box text, and the two log records, of a missing script. */
  function MissingScriptDialog(path: string): string {
    "SystemSentinel.ps1 not found at:\n" + path
  }

  function MissingScriptRecord(path: string): Diagnostic {
    Diagnostic(Error, "SystemSentinel.ps1 not found at: " + path)
  }

  function MissingResourceRecord(path: string): Diagnostic {
    Diagnostic(Error, "Resource not found: " + path)
  }

  function RunningScriptRecord(path: string): Diagnostic {
    Diagnostic(Info, "Running script: " + path)
  }

  /** The module boxes as the window keeps them: exactly Modules A, B and
      C, where B and C stay as created and A is checked exactly when it is
      green. */
  predicate ModulesValid(modules: map<Module, CheckBox>) {
    && modules.Keys == {ModuleA, ModuleB, ModuleC}
    && modules[ModuleB] == Unchecked && modules[ModuleC] == Unchecked
    && (modules[ModuleA].checked <==> modules[ModuleA].style == Green)
  }

  /** The command line `run_sentinel` hands to `QProcess.start`. */
  function ScriptCommand(scriptPath: string): seq<string> {
    ["powershell.exe", "-ExecutionPolicy", "Bypass", "-File", scriptPath]
  }

  class MainWindow {
    var runEnabled: bool
    var progressVisible: bool
    var modules: map<Module, CheckBox>
    var logText: seq<string>
    var process: ProcessState
    /** Command lines passed to `QProcess.start`, oldest first. */
    var launches: seq<seq<string>>
    /** Number of `QProcess.kill` calls. */
    var killRequests: nat
    /** Texts of the message boxes shown, oldest first. */
    var dialogs: seq<string>
    var diagnostics: seq<Diagnostic>
    /** The window icon file, `None` for Qt's default icon. */
    var icon: Option<string>

    /** The window's invariant: the module boxes are as `ModulesValid`
        says; the progress bar is shown exactly while the run button is
        disabled; and a running process always has the run button disabled,
        so at most one run is started at a time. */
    ghost predicate Valid()
      reads this
    {
      && ModulesValid(modules)
      && progressVisible == !runEnabled
      && (process == Running ==> !runEnabled)
    }

    /** `MainWindow.__init__` with resource root `base`; `iconExists` says
        whether the icon file is there. */
    constructor (base: string, iconExists: bool)
      ensures Valid()
      ensures runEnabled && !progressVisible && process == NotRunning
      ensures modules == map[ModuleA := Unchecked, ModuleB := Unchecked, ModuleC := Unchecked]
      ensures logText == [] && launches == [] && killRequests == 0 && dialogs == []
      ensures var resolved := ResourcePath(base, IconName, iconExists);
        && (iconExists ==>
              && icon == Some(resolved.path)
              && diagnostics == [Diagnostic(Info, "MainWindow initialized.")])
        && (!iconExists ==>
              && icon == None
              && diagnostics == [MissingResourceRecord(resolved.path),
                                 Diagnostic(Warning, "Icon file not found, using default icon."),
                                 Diagnostic(Info, "MainWindow initialized.")])
    {
      var resolved := ResourcePath(base, IconName, iconExists);
      var log := if resolved.diagnostic.Some? then [resolved.diagnostic.value] else [];
      if iconExists {
        icon := Some(resolved.path);
      } else {
        log := log + [Diagnostic(Warning, "Icon file not found, using default icon.")];
        icon := None;
      }
      logText := [];
      progressVisible := false;
      runEnabled := true;
      modules := map[ModuleA := Unchecked, ModuleB := Unchecked, ModuleC := Unchecked];
      process := NotRunning;
      launches := [];
      killRequests := 0;
      dialogs := [];
      diagnostics := log + [Diagnostic(Info, "MainWindow initialized.")];
    }

    /** `run_sentinel`, the handler of the run button (Qt only delivers the
        click while the button is enabled). The script is looked up under
        `base`; when it is missing nothing is started and the button and the
        progress bar are restored; otherwise the script is started with the
        button disabled and the progress bar shown. */
    method RunSentinel(base: string, scriptExists: bool)
      requires Valid() && runEnabled
      modifies this
      ensures Valid()
      ensures var path := PathJoin(base, ScriptName);
        && logText == old(logText) + [StartingMessage]
        && modules == old(modules) && killRequests == old(killRequests) && icon == old(icon)
        && (!scriptExists ==>
              && runEnabled && !progressVisible
              && process == old(process) && launches == old(launches)
              && dialogs == old(dialogs) + [MissingScriptDialog(path)]
              && diagnostics == old(diagnostics) + [Diagnostic(Info, StartingMessage),
                                                    MissingResourceRecord(path), MissingScriptRecord(path)])
        && (scriptExists ==>
              && !runEnabled && progressVisible
              && process == Running && launches == old(launches) + [ScriptCommand(path)]
              && dialogs == old(dialogs)
              && diagnostics == old(diagnostics) + [Diagnostic(Info, StartingMessage),
                                                    RunningScriptRecord(path)])
    {
      logText := logText + [StartingMessage];
      progressVisible := true;
      runEnabled := false;
      var resolved := ResourcePath(base, ScriptName, scriptExists);
      var scriptPath := resolved.path;
      if !scriptExists {
        dialogs := dialogs + [MissingScriptDialog(scriptPath)];
        runEnabled := true;
        progressVisible := false;
        diagnostics := diagnostics + [Diagnostic(Info, StartingMessage), resolved.diagnostic.value,
                                      MissingScriptRecord(scriptPath)];
        return;
      }
      diagnostics := diagnostics + [Diagnostic(Info, StartingMessage), RunningScriptRecord(scriptPath)];
      launches := launches + [ScriptCommand(scriptPath)];
      process := Running;
    }

    /** `handle_stdout` for a decoded chunk of standard output: the chunk is
        appended to the log text unchanged and logged, stripped, at debug
        level. */
    method HandleStdout(chunk: string)
      requires Valid()
      modifies this
      ensures Valid()
      ensures logText == old(logText) + [chunk]
      ensures diagnostics == old(diagnostics) + [Diagnostic(Debug, Strip(chunk))]
      ensures runEnabled == old(runEnabled) && progressVisible == old(progressVisible)
      ensures modules == old(modules) && process == old(process) && launches == old(launches)
      ensures killRequests == old(killRequests) && dialogs == old(dialogs) && icon == old(icon)
    {
      logText := logText + [chunk];
      diagnostics := diagnostics + [Diagnostic(Debug, Strip(chunk))];
    }

    /** `handle_stderr` for a decoded chunk of standard error: `ERROR: `
        and the chunk are appended to the log text and the stripped chunk is
        logged at error level. */
    method HandleStderr(chunk: string)
      requires Valid()
      modifies this
      ensures Valid()
      ensures logText == old(logText) + ["ERROR: " + chunk]
      ensures diagnostics == old(diagnostics) + [Diagnostic(Error, Strip(chunk))]
      ensures runEnabled == old(runEnabled) && progressVisible == old(progressVisible)
      ensures modules == old(modules) && process == old(process) && launches == old(launches)
      ensures killRequests == old(killRequests) && dialogs == old(dialogs) && icon == old(icon)
    {
      logText := logText + ["ERROR: " + chunk];
      diagnostics := diagnostics + [Diagnostic(Error, Strip(chunk))];
    }

    /** The child exits (Qt sets its state to `NotRunning`) and
        `process_finished` runs: exit code 0 checks Module A and turns it
        green, any other code unchecks it and turns it red; Modules B and C
        are left alone; the run button is enabled and the progress bar
        hidden whatever the code. */
    method ProcessFinished(exitCode: int32)
      requires Valid() && process == Running
      modifies this
      ensures Valid()
      ensures process == NotRunning && runEnabled && !progressVisible
      ensures exitCode == 0 ==>
        && modules == old(modules)[ModuleA := CheckBox(true, Green)]
        && logText == old(logText) + [SuccessMessage]
      ensures exitCode != 0 ==>
        && modules == old(modules)[ModuleA := CheckBox(false, Red)]
        && logText == old(logText) + [FailureMessage]
      ensures modules[ModuleB] == old(modules)[ModuleB] && modules[ModuleC] == old(modules)[ModuleC]
      ensures diagnostics == old(diagnostics) + [Diagnostic(Info, "Processing finished.")]
      ensures launches == old(launches) && killRequests == old(killRequests)
      ensures dialogs == old(dialogs) && icon == old(icon)
    {
      process := NotRunning;
      if exitCode == 0 {
        logText := logText + [SuccessMessage];
        modules := modules[ModuleA := CheckBox(true, Green)];
      } else {
        logText := logText + [FailureMessage];
        modules := modules[ModuleA := CheckBox(false, Red)];
      }
      runEnabled := true;
      progressVisible := false;
      diagnostics := diagnostics + [Diagnostic(Info, "Processing finished.")];
    }

    /** `closeEvent`: the child is killed only while it is not `NotRunning`
        (what becomes of it afterwards is Qt's); the event is always
        accepted and nothing else changes. */
    method CloseEvent() returns (accepted: bool)
      requires Valid()
      modifies this
      ensures Valid()
      ensures accepted
      ensures killRequests == old(killRequests) + (if old(process) != NotRunning then 1 else 0)
      ensures runEnabled == old(runEnabled) && progressVisible == old(progressVisible)
      ensures modules == old(modules) && logText == old(logText) && process == old(process)
      ensures launches == old(launches) && dialogs == old(dialogs)
      ensures diagnostics == old(diagnostics) && icon == old(icon)
    {
      if process != NotRunning {
        killRequests := killRequests + 1;
      }
      accepted := true;
    }
  }
}
