/**
 * The configuration record of the humanizer: seven independent switches,
 * one per transformation category, and the "absent options" default.
 */
module Settings {

  datatype Option<T> = None | Some(value: T)

  /** The seven switches of `HumanizeOptions`, in declaration order. */
  datatype Options = Options(
    transformHidden: bool,
    transformTrailingWhitespace: bool,
    transformNbs: bool,
    transformDashes: bool,
    transformQuotes: bool,
    transformOther: bool,
    keyboardOnly: bool)

  /** The name of the switch that gates one rule (the third column of the rule table). */
  datatype Gate =
    | TransformHidden
    | TransformTrailingWhitespace
    | TransformNbs
    | TransformDashes
    | TransformQuotes
    | TransformOther

  /** `HumanizeOptions()` with no arguments: every transform on, the keyboard filter off. */
  function Defaults(): (o: Options)
    ensures o.transformHidden && o.transformTrailingWhitespace && o.transformNbs
    ensures o.transformDashes && o.transformQuotes && o.transformOther
    ensures !o.keyboardOnly
  {
    Options(true, true, true, true, true, true, false)
  }

  /** `if options is None: options = HumanizeOptions()`. */
  function Resolve(options: Option<Options>): (o: Options)
    ensures options.None? ==> o == Defaults()
    ensures options.Some? ==> o == options.value
  {
    match options
    case None => Defaults()
    case Some(given) => given
  }

  /** `getattr(options, option_name)`: the value of the switch a gate names. */
  function Enabled(o: Options, g: Gate): (on: bool)
  {
    match g
    case TransformHidden => o.transformHidden
    case TransformTrailingWhitespace => o.transformTrailingWhitespace
    case TransformNbs => o.transformNbs
    case TransformDashes => o.transformDashes
    case TransformQuotes => o.transformQuotes
    case TransformOther => o.transformOther
  }
}
