/** The PHP values the updater stores, reads and compares: decoded JSON
    bodies, option values and setting arrays. */
module PhpValues {
  import opened PhpStrings

  datatype Option<+T> = None | Some(value: T)

  /** A PHP value. `Arr` is an associative array, `Obj` an object such as the
      `stdClass` that `json_decode` returns; floats are not represented. */
  datatype Value =
    | Null
    | Bool(b: bool)
    | Int(i: int)
    | Str(s: string)
    | Arr(entries: map<string, Value>)
    | Obj(props: map<string, Value>)

  /** The negation of PHP's `empty()`, i.e. loose truthiness. The string "0"
      is falsy. */
  predicate Truthy(v: Value)
    ensures !Truthy(v) <==>
              v == Null || v == Bool(false) || v == Int(0) || v == Str("") || v == Str("0") || v == Arr(map[])
  {
    match v
    case Null => false
    case Bool(b) => b
    case Int(i) => i != 0
    case Str(s) => s != "" && s != "0"
    case Arr(m) => m != map[]
    case Obj(_) => true
  }

  /** A literal that starts with a lower-case letter, hence a non-numeric,
      truthy string. */
  predicate IsWord(w: string) { w != [] && 'a' <= w[0] <= 'z' }

  /** `$v == 'word'` (also a `switch` case) under PHP 8 rules: a string
      compares as text, a boolean against the word's truthiness (`true`),
      and every other value is unequal. */
  predicate LooselyEqualsWord(v: Value, w: string)
    requires IsWord(w)
    ensures LooselyEqualsWord(v, w) <==> v == Str(w) || v == Bool(true)
  {
    match v
    case Str(s) => s == w
    case Bool(b) => b
    case _ => false
  }

  /** `$v->name`: the property of an object, `null` when it has none or `v`
      is not an object. */
  function Prop(v: Value, name: string): (r: Value)
    ensures v.Obj? && name in v.props ==> r == v.props[name]
    ensures r != Null ==> v.Obj? && name in v.props
  {
    match v
    case Obj(p) => if name in p then p[name] else Null
    case _ => Null
  }

  /** The string a scalar converts to (`(string) $v`): a string is itself,
      an integer becomes numeric text that reads back as the same integer,
      and `null` and `false` become the empty string. */
  function ToText(v: Value): (r: string)
    ensures v.Str? ==> r == v.s
    ensures v.Int? ==> IsNumericText(r) && NumericValue(r) == v.i
    ensures v == Null || v == Bool(false) ==> r == ""
  {
    match v
    case Null => ""
    case Bool(b) => if b then "1" else ""
    case Int(i) => IntTextRoundTrip(i); IntText(i)
    case Str(s) => s
    case Arr(_) => "Array"
    case Obj(_) => ""
  }
}
