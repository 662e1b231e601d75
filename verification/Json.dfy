/** JSON values and the accessors of the scenario code. */
module Json {
  import opened Text

  const U64_MAX := 0xFFFF_FFFF_FFFF_FFFF

  type U64 = n: nat | n <= U64_MAX

  /** A number is either one that `as_u64` accepts or some other one. */
  datatype Json =
    | Null
    | Bool(truth: bool)
    | Unsigned(number: U64)
    | OtherNumber(digits: string)
    | Str(text: string)
    | Arr(items: seq<Json>)
    | Obj(fields: map<string, Json>)

  function Get(value: Json, key: string): Option<Json> {
    if value.Obj? && key in value.fields then Some(value.fields[key]) else None
  }

  function ValueAtPath(value: Json, path: seq<string>): Option<Json> {
    if path == [] then Some(value)
    else
      match Get(value, path[0])
      case None => None
      case Some(v) => ValueAtPath(v, path[1..])
  }

  /** Every value of the chain is the field of the one before that the path names next. */
  ghost predicate FollowsPath(chain: seq<Json>, path: seq<string>) {
    && |chain| == |path| + 1
    && forall i :: 0 <= i < |path| ==>
      chain[i].Obj? && path[i] in chain[i].fields && chain[i + 1] == chain[i].fields[path[i]]
  }

  /** The path leads from a value, through one object for each of its segments, to a value. */
  ghost predicate LeadsTo(value: Json, path: seq<string>, target: Json) {
    exists chain :: FollowsPath(chain, path) && chain[0] == value && chain[|path|] == target
  }

  /** The accessor gives exactly the value that the whole path leads to. */
  lemma ValueAtPathIsTarget(value: Json, path: seq<string>, target: Json)
    ensures ValueAtPath(value, path) == Some(target) <==> LeadsTo(value, path, target)
  {
    if ValueAtPath(value, path) == Some(target) {
      AccessorFollows(value, path);
    }
    if chain :| FollowsPath(chain, path) && chain[0] == value && chain[|path|] == target {
      ChainIsAccessed(chain, path);
    }
  }

  lemma {:induction false} AccessorFollows(value: Json, path: seq<string>)
    requires ValueAtPath(value, path).Some?
    ensures LeadsTo(value, path, ValueAtPath(value, path).value)
  {
    if path == [] {
      assert FollowsPath([value], path);
    } else {
      var next := Get(value, path[0]).value;
      AccessorFollows(next, path[1..]);
      var chain :| FollowsPath(chain, path[1..]) && chain[0] == next &&
                   chain[|path[1..]|] == ValueAtPath(next, path[1..]).value;
      ChainPrepend(value, chain, path);
    }
  }

  lemma {:induction false} ChainIsAccessed(chain: seq<Json>, path: seq<string>)
    requires FollowsPath(chain, path)
    ensures ValueAtPath(chain[0], path) == Some(chain[|path|])
  {
    if path != [] {
      assert forall i :: 0 <= i < |path| - 1 ==> path[1..][i] == path[i + 1];
      ChainIsAccessed(chain[1..], path[1..]);
    }
  }

  lemma ChainPrepend(value: Json, chain: seq<Json>, path: seq<string>)
    requires path != [] && FollowsPath(chain, path[1..]) && Get(value, path[0]) == Some(chain[0])
    ensures LeadsTo(value, path, chain[|path| - 1])
  {
    var longer := [value] + chain;
    forall i | 0 <= i < |path|
      ensures longer[i].Obj? && path[i] in longer[i].fields && longer[i + 1] == longer[i].fields[path[i]]
    {
      if i > 0 {
        assert path[i] == path[1..][i - 1];
      }
    }
    assert FollowsPath(longer, path);
  }

  function Decimal(n: nat): string {
    (if n < 10 then "" else Decimal(n / 10)) + [('0' as int + n % 10) as char]
  }

  /** The number that a text of digits denotes. */
  function NumberOf(digits: string): nat
    requires forall i :: 0 <= i < |digits| ==> '0' <= digits[i] <= '9'
  {
    if digits == "" then 0
    else 10 * NumberOf(digits[..|digits| - 1]) + (digits[|digits| - 1] as int - '0' as int)
  }

  /** The text is the number in decimal digits, without leading zeros. */
  predicate IsDecimal(text: string, n: nat) {
    && text != ""
    && (forall i :: 0 <= i < |text| ==> '0' <= text[i] <= '9')
    && NumberOf(text) == n
    && (|text| > 1 ==> text[0] != '0')
  }

  lemma {:induction false} DecimalIsDecimal(n: nat)
    ensures IsDecimal(Decimal(n), n) && (n > 0 ==> Decimal(n)[0] != '0')
  {
    var last := ('0' as int + n % 10) as char;
    if n < 10 {
      assert Decimal(n) == [last] && [last][..0] == "";
    } else {
      DecimalIsDecimal(n / 10);
      assert (Decimal(n / 10) + [last])[..|Decimal(n / 10)|] == Decimal(n / 10);
    }
  }

  lemma {:induction false} FirstDigitCounts(text: string)
    requires text != "" && text[0] != '0' && forall i :: 0 <= i < |text| ==> '0' <= text[i] <= '9'
    ensures NumberOf(text) > 0
  {
    if |text| > 1 {
      FirstDigitCounts(text[..|text| - 1]);
    }
  }

  lemma DecimalStep(n: nat, digit: char)
    requires '0' <= digit <= '9' && digit as int - '0' as int == n % 10
    ensures Decimal(n) == (if n < 10 then "" else Decimal(n / 10)) + [digit]
  {
    assert ('0' as int + n % 10) as char == digit;
  }

  lemma NumberStep(text: string)
    requires text != "" && forall i :: 0 <= i < |text| ==> '0' <= text[i] <= '9'
    ensures var digit := text[|text| - 1] as int - '0' as int;
      NumberOf(text) / 10 == NumberOf(text[..|text| - 1]) && NumberOf(text) % 10 == digit
  {
  }

  lemma {:induction false} OneDecimal(text: string, n: nat)
    requires IsDecimal(text, n)
    ensures text == Decimal(n)
  {
    var init, digit := text[..|text| - 1], text[|text| - 1];
    NumberStep(text);
    DecimalStep(n, digit);
    assert text == init + [digit];
    if |text| > 1 {
      FirstDigitCounts(init);
      OneDecimal(init, n / 10);
    }
  }

  /** The text of a string or of an unsigned number. */
  function StringOf(value: Json): Option<string> {
    match value
    case Str(text) => Some(text)
    case Unsigned(number) => Some(Decimal(number))
    case _ => None
  }

  function StringAtPath(value: Json, path: seq<string>): Option<string> {
    match ValueAtPath(value, path)
    case None => None
    case Some(v) => StringOf(v)
  }

  /** A string is a text, and an unsigned number is one in its decimal digits. */
  predicate IsText(value: Json, text: string) {
    value == Str(text) || (value.Unsigned? && IsDecimal(text, value.number))
  }

  /** The path leads to the text. */
  ghost predicate IsTextAt(value: Json, path: seq<string>, text: string) {
    exists target :: LeadsTo(value, path, target) && IsText(target, text)
  }

  lemma StringAtPathIsText(value: Json, path: seq<string>, text: string)
    ensures StringAtPath(value, path) == Some(text) <==> IsTextAt(value, path, text)
  {
    forall target ensures ValueAtPath(value, path) == Some(target) <==> LeadsTo(value, path, target) {
      ValueAtPathIsTarget(value, path, target);
    }
    forall target: Json ensures StringOf(target) == Some(text) <==> IsText(target, text) {
      if target.Unsigned? {
        DecimalIsDecimal(target.number);
        if IsDecimal(text, target.number) {
          OneDecimal(text, target.number);
        }
      }
    }
    if StringAtPath(value, path) == Some(text) {
      assert LeadsTo(value, path, ValueAtPath(value, path).value);
    }
  }

  function FirstString(value: Json, paths: seq<seq<string>>): Option<string> {
    if paths == [] then None
    else
      match StringAtPath(value, paths[0])
      case Some(text) => Some(text)
      case None => FirstString(value, paths[1..])
  }
}
