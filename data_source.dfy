/** The serial-stream data source: option parsing and capture-file setup
    (its constructor), closing the capture file (its destructor), and the
    per-tick connection update. */
module DataSource {
  import opened Wrappers
  import opened Paths
  import opened Registry
  import opened Connection

  /** A configuration option's value: a string, or some other JSON value. */
  datatype OptionValue = Text(s: string) | NonText
  type Options = map<string, OptionValue>

  /** The open disposition of the capture file: truncate or append. */
  datatype OpenMode = Truncate | Append

  /** The errors the constructor throws. */
  datatype ConfigError =
    | InvalidMode(modeString: string)
    | SharedFilename(filename: string)
    | OpenFailed(name: string)

  /** Period of the flush timer created when the capture file opens. */
  const FlushPeriodMs: nat := 1000

  /** The value of a string option; absent when missing or not a string. */
  function StringOption(options: Options, key: string): (r: Option<string>)
    ensures r.Some? <==> key in options && options[key].Text?
    ensures r.Some? ==> r.value == options[key].s
  {
    if key in options && options[key].Text? then Some(options[key].s) else None
  }

  /** The disposition a `mode` string selects; None for a string the source rejects. */
  function ModeFor(modeString: string): (r: Option<OpenMode>)
    ensures r.Some? <==> modeString == "overwrite" || modeString == "append" || modeString == "new"
    ensures r == Some(Truncate) <==> modeString == "overwrite"
  {
    if modeString == "overwrite" then Some(Truncate)
    else if modeString == "append" then Some(Append)
    else if modeString == "new" then Some(Append)
    else None
  }

  /** The path the capture file is opened at, given the home-expanded configured
      path: unchanged unless the mode is "new", and then the first numbered
      sibling that does not exist yet. */
  function ResolveTarget(modeString: string, abs: Path, existing: set<Path>): (r: Path)
    ensures modeString != "new" ==> r == abs
    ensures modeString == "new" ==>
      r !in existing && r.dir == abs.dir && r.ext == abs.ext &&
      exists n :: IsFirstFree(abs, existing, n) && r == Numbered(abs, n)
  {
    if modeString == "new" then Numbered(abs, FirstFree(abs, existing)) else abs
  }

  /** The registry key a capture file is claimed under. */
  function FileClaim(filename: string): Claim {
    Claim("file", filename)
  }

  class SerialStream {
    var rawFileOut: bool
    var filename: string
    var modeString: string
    var mode: Option<OpenMode>
    var fileOpen: bool
    var flushTimer: Option<nat>
    var isOnline: bool
    var hasError: bool

    /** The member defaults a data source has before its options are read. */
    predicate Pristine()
      reads this
    {
      !rawFileOut && filename == "" && modeString == "" && mode == None &&
      !fileOpen && flushTimer == None && !isOnline && !hasError
    }

    constructor ()
      ensures Pristine()
    {
      rawFileOut, filename, modeString, mode := false, "", "", None;
      fileOpen, flushTimer := false, None;
      isOnline, hasError := false, false;
    }

    /** The constructor's body. `resolveHome` stands for home expansion followed
        by splitting the path; `existing` is the set of paths present on disk;
        `openSucceeds` is whether the file stream opens. */
    method Configure(options: Options, registry: DependencyRegistry,
                     resolveHome: string -> Path, existing: set<Path>, openSucceeds: bool)
      returns (r: Outcome<ConfigError>)
      requires Pristine()
      modifies this, registry
      ensures rawFileOut <==> StringOption(options, "filename").Some?
      ensures modeString == StringOption(options, "mode").GetOr("")
      ensures !isOnline && !hasError
      // capture off: mode is never looked at and nothing is claimed or opened
      ensures !rawFileOut ==>
        r == Pass && filename == "" && mode == None && !fileOpen && flushTimer == None &&
        registry.claims == old(registry.claims)
      // a rejected mode is reported before any claim is made
      ensures rawFileOut && ModeFor(modeString) == None ==>
        r == Fail(InvalidMode(modeString)) && !fileOpen && flushTimer == None &&
        mode == None && filename == StringOption(options, "filename").value &&
        registry.claims == old(registry.claims)
      // an accepted mode claims the configured, unresolved filename
      ensures rawFileOut && ModeFor(modeString) != None ==>
        mode == ModeFor(modeString) &&
        registry.claims == old(registry.claims) + {FileClaim(StringOption(options, "filename").value)}
      ensures rawFileOut && ModeFor(modeString) != None &&
              FileClaim(StringOption(options, "filename").value) in old(registry.claims) ==>
        r == Fail(SharedFilename(StringOption(options, "filename").value)) &&
        filename == StringOption(options, "filename").value &&
        !fileOpen && flushTimer == None
      // an unclaimed filename is resolved and opened; the flush timer exists iff it opened
      ensures rawFileOut && ModeFor(modeString) != None &&
              FileClaim(StringOption(options, "filename").value) !in old(registry.claims) ==>
        var target := ResolveTarget(modeString, resolveHome(StringOption(options, "filename").value), existing);
        filename == PathString(target) && fileOpen == openSucceeds &&
        (openSucceeds ==> r == Pass && flushTimer == Some(FlushPeriodMs)) &&
        (!openSucceeds ==> r == Fail(OpenFailed(FileName(target))) && flushTimer == None)
    {
      if "filename" in options && options["filename"].Text? {
        filename := options["filename"].s;
        rawFileOut := true;
      }
      if "mode" in options && options["mode"].Text? {
        modeString := options["mode"].s;
      }

      if rawFileOut {
        if modeString == "overwrite" {
          mode := Some(Truncate);
        } else if modeString == "append" {
          mode := Some(Append);
        } else if modeString == "new" {
          mode := Some(Append);
        } else {
          return Fail(InvalidMode(modeString));
        }
        var ok := registry.AssertDependency("file", filename);
        if !ok {
          return Fail(SharedFilename(filename));
        }
      }

      if rawFileOut {
        var pathObj := resolveHome(filename);
        if modeString == "new" {
          pathObj := NextFreePath(pathObj, existing);
        }
        filename := PathString(pathObj);
        fileOpen := openSucceeds;
        if !fileOpen {
          return Fail(OpenFailed(FileName(pathObj)));
        }
        flushTimer := Some(FlushPeriodMs);
      }
      r := Pass;
    }

    /** The destructor: with capture on, close the file if it is open (reported
        in `closed`) and drop the flush timer. */
    method Teardown() returns (closed: bool)
      modifies this
      ensures closed <==> old(rawFileOut) && old(fileOpen)
      ensures old(rawFileOut) ==> !fileOpen && flushTimer == None
      ensures !old(rawFileOut) ==> fileOpen == old(fileOpen) && flushTimer == old(flushTimer)
      ensures rawFileOut == old(rawFileOut) && filename == old(filename)
      ensures modeString == old(modeString) && mode == old(mode)
      ensures isOnline == old(isOnline) && hasError == old(hasError)
    {
      closed := false;
      if rawFileOut {
        if fileOpen {
          fileOpen := false;
          closed := true;
        }
        flushTimer := None;
      }
    }

    /** One tick of the connection state machine, as Step describes it; the
        capture state is left alone. */
    method Update(reportsOpen: bool, timerFired: bool, openedOk: bool) returns (act: Action)
      modifies this
      ensures var t := Step(old(Link(isOnline, hasError)), Observation(reportsOpen, timerFired, openedOk));
        Link(isOnline, hasError) == t.next && act == t.action
      ensures rawFileOut == old(rawFileOut) && filename == old(filename)
      ensures modeString == old(modeString) && mode == old(mode)
      ensures fileOpen == old(fileOpen) && flushTimer == old(flushTimer)
    {
      act := Wait;
      if isOnline {
        if reportsOpen {
          hasError := false;
          isOnline := true;
          act := Poll;
        } else {
          hasError := true;
          isOnline := false;
          act := CloseTransport;
        }
      } else {
        if timerFired {
          act := OpenTransport;
          hasError := !openedOk;
          isOnline := openedOk;
        }
      }
    }
  }

  /** A second teardown closes nothing: the close is guarded by the file being open. */
  method TeardownTwice(source: SerialStream) returns (first: bool, second: bool)
    modifies source
    ensures first <==> old(source.rawFileOut && source.fileOpen)
    ensures !second
  {
    first := source.Teardown();
    second := source.Teardown();
  }

  /** Two data sources configured with the same capture filename: when the first
      one gets past its mode check, the second is refused with SharedFilename. */
  method SameFilenameTwice(options: Options, registry: DependencyRegistry,
                           resolveHome: string -> Path, existing: set<Path>, openSucceeds: bool)
    returns (first: Outcome<ConfigError>, second: Outcome<ConfigError>)
    requires StringOption(options, "filename").Some?
    modifies registry
    ensures first.Fail? && first.error.InvalidMode? <==> second.Fail? && second.error.InvalidMode?
    ensures !(first.Fail? && first.error.InvalidMode?) ==>
      second == Fail(SharedFilename(StringOption(options, "filename").value))
  {
    var a := new SerialStream();
    first := a.Configure(options, registry, resolveHome, existing, openSucceeds);
    var b := new SerialStream();
    second := b.Configure(options, registry, resolveHome, existing, openSucceeds);
  }
}
