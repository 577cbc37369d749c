/** The job configuration a parsed AQC record describes. */
module Configuration {
  import opened Wrappers

  /** How the paths of a record select files. */
  datatype FileMode = Unknown | Files | Dir {

    /** `bool(mode)`: only `Unknown` is falsy. */
    predicate Bool()
      ensures Bool() <==> Value() != "unknown"
    {
      !Unknown?
    }

    /** The enumeration's string value: the member's name in lower case. */
    function Value(): (v: string)
      ensures v != [] && forall i :: 0 <= i < |v| ==> 'a' <= v[i] <= 'z'
    {
      match this
      case Unknown => "unknown"
      case Files => "files"
      case Dir => "dir"
    }
  }

  /** What to do with every line of the selected files. */
  datatype Action = Unknown | String | Count | Replace {

    /** `bool(action)`: only `Unknown` is falsy. */
    predicate Bool()
      ensures Bool() <==> Value() != "unknown"
    {
      !Unknown?
    }

    /** The enumeration's string value: the member's name in lower case. */
    function Value(): (v: string)
      ensures v != [] && forall i :: 0 <= i < |v| ==> 'a' <= v[i] <= 'z'
    {
      match this
      case Unknown => "unknown"
      case String => "string"
      case Count => "count"
      case Replace => "replace"
    }
  }

  /** One record: its id, where it was loaded from, and the three required keys. */
  datatype Config = Config(
    configId: int,
    pathToConfig: Option<string>,
    mode: FileMode,
    action: Action,
    actionPath: Option<seq<string>>)

  /** `Config(config_id=configId)`: every other field at its default, every key unset. */
  function NewConfig(configId: int): (c: Config)
    ensures c.configId == configId && c.pathToConfig.None?
    ensures !c.mode.Bool() && !c.action.Bool() && c.actionPath.None?
  {
    Config(configId, None, FileMode.Unknown, Action.Unknown, None)
  }

  /** A record whose three required keys are all set. */
  predicate IsComplete(c: Config) {
    c.mode.Bool() && c.action.Bool() && c.actionPath.Some? && c.actionPath.value != []
  }
}
