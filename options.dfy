/** The host's key/value option table (`get_option`, `update_option`,
    `delete_option`). It persists across requests and is shared by every
    plugin that uses the updater. */
module Options {
  import opened PhpValues

  /** `get_option( $name, $default )` on a snapshot of the table. */
  function OptionOr(options: map<string, Value>, name: string, default: Value): Value {
    if name in options then options[name] else default
  }

  class OptionStore {
    var options: map<string, Value>

    constructor (initial: map<string, Value>)
      ensures options == initial
    {
      options := initial;
    }

    /** `get_option( $name )`: `false` when the option does not exist. */
    function Get(name: string): (v: Value)
      reads this
      ensures name in options ==> v == options[name]
      ensures name !in options ==> v == Bool(false)
    {
      OptionOr(options, name, Bool(false))
    }

    /** `get_option( $name, $default )`. */
    function GetOr(name: string, default: Value): (v: Value)
      reads this
      ensures name in options ==> v == options[name]
      ensures name !in options ==> v == default
    {
      OptionOr(options, name, default)
    }

    /** `update_option`: the value replaces whatever was stored. */
    method Update(name: string, value: Value)
      modifies this
      ensures options == old(options)[name := value]
    {
      options := options[name := value];
    }

    /** `delete_option`. */
    method Delete(name: string)
      modifies this
      ensures options == old(options) - {name}
    {
      options := options - {name};
    }
  }
}
