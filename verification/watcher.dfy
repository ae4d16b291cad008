/**
  The configuration watcher's sequential part: which file-system events
  trigger a reload, how the configuration file is loaded, and what a
  reload does. Watching the directory, the event channel and the error
  channel are not modelled; each event arrives with a snapshot of the
  files it can read.
 */
module Watcher {
  import opened Wrappers
  import opened Model
  import opened Logging

  /** The path the watcher tracks. */
  const ConfigPath: string := "config.yaml"

  /** The path the loader reads: a literal, not the tracked path (the two are equal today). */
  const ReadPath: string := "config.yaml"

  /** The operation bits a file-system event can carry. */
  datatype Op = Create | Write | Remove | Rename | Chmod

  /** A file-system event: the path it concerns and the set of operation bits. */
  datatype FsEvent = FsEvent(name: string, ops: set<Op>)

  /** A snapshot of the readable files; a path that is absent cannot be read. */
  type Files = map<string, seq<bv8>>

  /** The YAML decoder, left uninterpreted: the configuration a text decodes to, if any. */
  type Decoder = seq<bv8> -> Option<Config>

  datatype LoadError = ReadFailed | ParseFailed

  /** `p` without its trailing slashes. */
  function StripTrailingSlashes(p: string): (r: string)
    ensures r <= p
    ensures r == [] || r[|r| - 1] != '/'
    ensures forall i :: |r| <= i < |p| ==> p[i] == '/'
    decreases |p|
  {
    if |p| > 0 && p[|p| - 1] == '/' then StripTrailingSlashes(p[..|p| - 1]) else p
  }

  /** The longest suffix of `p` that holds no slash. */
  function LastElement(p: string): (r: string)
    ensures |r| <= |p| && r == p[|p| - |r|..]
    ensures '/' !in r
    ensures |r| < |p| ==> p[|p| - |r| - 1] == '/'
    decreases |p|
  {
    if p == [] || p[|p| - 1] == '/' then []
    else LastElement(p[..|p| - 1]) + [p[|p| - 1]]
  }

  /**
    The last element of a slash-separated path: "." for the empty path,
    "/" for a path of slashes only, otherwise what follows the last slash
    once trailing slashes are dropped.
   */
  function Base(path: string): (r: string)
    ensures r != ""
    ensures r == "/" || '/' !in r
    ensures path == "" ==> r == "."
  {
    if path == "" then "."
    else
      var element := LastElement(StripTrailingSlashes(path));
      if element == "" then "/" else element
  }

  /** A name with no slash is its own base name. */
  lemma BaseOfName(name: string)
    requires name != "" && '/' !in name
    ensures Base(name) == name
  {
    assert StripTrailingSlashes(name) == name by {
      assert name[|name| - 1] in name;
    }
  }

  /** The base name of `dir/name` is `name`, whatever the directory. */
  lemma {:induction false} BaseOfJoin(dir: string, name: string)
    requires name != "" && '/' !in name
    ensures Base(dir + "/" + name) == name
  {
    var p := dir + "/" + name;
    assert p[|p| - 1] == name[|name| - 1];
    assert name[|name| - 1] in name;
    assert StripTrailingSlashes(p) == p;
    assert p[|p| - |name| - 1] == '/';
    assert p[|p| - |name|..] == name;
  }

  /** A run of `n` slashes. */
  function Slashes(n: nat): (r: string)
    ensures |r| == n && forall i :: 0 <= i < n ==> r[i] == '/'
  {
    seq(n, _ => '/')
  }

  /** Dropping trailing slashes ignores any run of slashes appended to the path. */
  lemma {:induction false} StripAppendedSlashes(p: string, n: nat)
    ensures StripTrailingSlashes(p + Slashes(n)) == StripTrailingSlashes(p)
    decreases n
  {
    if n > 0 {
      var q := p + Slashes(n);
      assert q[|q| - 1] == '/';
      assert q[..|q| - 1] == p + Slashes(n - 1);
      StripAppendedSlashes(p, n - 1);
    } else {
      assert p + Slashes(0) == p;
    }
  }

  /** A path made only of slashes has base name "/". */
  lemma BaseOfSlashes(n: nat)
    requires n > 0
    ensures Base(Slashes(n)) == "/"
  {
    StripAppendedSlashes([], n);
    assert [] + Slashes(n) == Slashes(n);
  }

  /** Trailing slashes do not change the base name: the base of `dir/name///` is still `name`. */
  lemma BaseOfJoinWithSlashes(dir: string, name: string, n: nat)
    requires name != "" && '/' !in name
    ensures Base(dir + "/" + name + Slashes(n)) == name
  {
    StripAppendedSlashes(dir + "/" + name, n);
    BaseOfJoin(dir, name);
  }

  /**
    The event filter: the event's base name is the tracked file's base
    name, and its operation bits include Write or Create.
   */
  predicate ShouldReload(ev: FsEvent, configPath: string) {
    Base(ev.name) == Base(configPath) && (Write in ev.ops || Create in ev.ops)
  }

  /** Another file in the watched directory never triggers a reload. */
  lemma SiblingIgnored(dir: string, name: string, ops: set<Op>)
    requires name != "" && '/' !in name && name != Base(ConfigPath)
    ensures !ShouldReload(FsEvent(dir + "/" + name, ops), ConfigPath)
  {
    BaseOfJoin(dir, name);
  }

  /** Remove, Rename and Chmod alone never trigger a reload. */
  lemma MetadataOnlyIgnored(ev: FsEvent, configPath: string)
    requires ev.ops <= {Remove, Rename, Chmod}
    ensures !ShouldReload(ev, configPath)
  {
    assert Write !in ev.ops && Create !in ev.ops;
  }

  /** An event on the tracked file in any directory reloads iff it carries Write or Create. */
  lemma {:induction false} TrackedFileReloads(dir: string, ops: set<Op>)
    ensures ShouldReload(FsEvent(dir + "/" + ConfigPath, ops), ConfigPath) <==> Write in ops || Create in ops
  {
    assert '/' !in ConfigPath;
    BaseOfJoin(dir, ConfigPath);
    BaseOfName(ConfigPath);
  }

  /**
    Reads the configuration file and decodes it into a fresh value. The
    result is a configuration only when both the read and the decode
    succeed; nothing of any earlier configuration survives in it.
   */
  function LoadConfig(files: Files, decode: Decoder): (r: Result<Config, LoadError>)
    ensures ReadPath !in files ==> r == Failure(ReadFailed)
    ensures ReadPath in files && decode(files[ReadPath]).None? ==> r == Failure(ParseFailed)
    ensures r.Success? <==> ReadPath in files && decode(files[ReadPath]).Some?
    ensures r.Success? ==> Some(r.value) == decode(files[ReadPath])
  {
    if ReadPath !in files then Failure(ReadFailed)
    else
      match decode(files[ReadPath])
      case None => Failure(ParseFailed)
      case Some(config) => Success(config)
  }

  /** What a reload does, in order. */
  datatype Effect = ConfigReplaced(config: Config) | LoggerRebuilt(settings: LogSettings) | ReloadNotified

  /** How the watcher handles one event. A failed load aborts the process (the error is logged as fatal). */
  datatype ReloadOutcome = Ignored | Reloaded(config: Config, effects: seq<Effect>) | Aborted(error: LoadError)

  /**
    The watcher's handling of one event: filter, then load, then rebuild
    the logger from the configuration just stored, then notify.
   */
  function OnEvent(ev: FsEvent, files: Files, decode: Decoder): (r: ReloadOutcome)
    ensures r.Ignored? <==> !ShouldReload(ev, ConfigPath)
    ensures r.Aborted? ==> LoadConfig(files, decode) == Failure(r.error)
    ensures r.Reloaded? ==> LoadConfig(files, decode) == Success(r.config)
    ensures r.Reloaded? ==>
              r.effects == [ConfigReplaced(r.config), LoggerRebuilt(EffectiveLog(r.config.log)), ReloadNotified]
    ensures ShouldReload(ev, ConfigPath) ==> (r.Reloaded? <==> LoadConfig(files, decode).Success?)
  {
    if !ShouldReload(ev, ConfigPath) then Ignored
    else
      match LoadConfig(files, decode)
      case Failure(e) => Aborted(e)
      case Success(config) =>
        Reloaded(config, [ConfigReplaced(config), LoggerRebuilt(EffectiveLog(config.log)), ReloadNotified])
  }
}
