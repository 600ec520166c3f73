/** JSON values as the controller receives them, and the coercions both sides apply to them. */
module Wire {

  import opened Prelude

  /** `JOther` stands for floats, lists and objects: their str(), truthiness, int(), and the integer they compare
      equal to, if any, are given. */
  datatype Json =
    | JNull
    | JBool(b: bool)
    | JInt(n: int)
    | JStr(s: string)
    | JOther(text: string, truthy: bool, number: Option<int>, equals: Option<int>)

  /** The ASCII characters str.strip() removes. */
  predicate IsSpace(c: char) {
    c == ' ' || 9 <= c as int <= 13 || 28 <= c as int <= 31
  }

  function StripLeft(s: string): (r: string) {
    if s != "" && IsSpace(s[0]) then StripLeft(s[1..]) else s
  }

  function StripRight(s: string): (r: string) {
    if s != "" && IsSpace(s[|s| - 1]) then StripRight(s[..|s| - 1]) else s
  }

  function Strip(s: string): string {
    StripRight(StripLeft(s))
  }

  function Digits(n: nat): (s: string)
    ensures s != "" && forall c :: c in s ==> '0' <= c <= '9'
  {
    var last := [('0' as int + n % 10) as char];
    if n < 10 then last else Digits(n / 10) + last
  }

  function IntText(n: int): string {
    if n < 0 then "-" + Digits(-n) else Digits(n)
  }

  /** str(value). */
  function Text(j: Json): string {
    match j
    case JNull => "None"
    case JBool(b) => if b then "True" else "False"
    case JInt(n) => IntText(n)
    case JStr(s) => s
    case JOther(text, _, _, _) => text
  }

  /** _optional_text. */
  function OptionalText(j: Json): Option<string> {
    if j.JNull? then None else
      var t := Strip(Text(j));
      if t == "" then None else Some(t)
  }

  predicate Truthy(j: Json) {
    match j
    case JNull => false
    case JBool(b) => b
    case JInt(n) => n != 0
    case JStr(s) => s != ""
    case JOther(_, truthy, _, _) => truthy
  }

  /** Value of a plain decimal digit string. */
  function DigitsValue(s: string): (v: Option<nat>) {
    if s == "" then None else
      var c := s[|s| - 1];
      if !('0' <= c <= '9') then None else
        var d := c as int - '0' as int;
        if |s| == 1 then Some(d) else
          var rest := DigitsValue(s[..|s| - 1]);
          if rest.None? then None else Some(rest.value * 10 + d)
  }

  function ParseInt(s: string): Option<int> {
    var t := Strip(s);
    if t == "" then None
    else if t[0] == '-' then
      var v := DigitsValue(t[1..]);
      if v.None? then None else
        Some(0 - (v.value as int))
    else
      var v := DigitsValue(if t[0] == '+' then t[1..] else t);
      if v.None? then None else Some(v.value)
  }

  /** int(value); `None` stands for TypeError or ValueError. */
  function IntOf(j: Json): Option<int> {
    match j
    case JNull => None
    case JBool(b) => Some(if b then 1 else 0)
    case JInt(n) => Some(n)
    case JStr(s) => ParseInt(s)
    case JOther(_, _, number, _) => number
  }

  /** value == n. */
  predicate EqualsInt(j: Json, n: int) {
    match j
    case JInt(k) => k == n
    case JBool(b) => n == if b then 1 else 0
    case JOther(_, _, _, equals) => equals == Some(n)
    case _ => false
  }

  predicate Blank(j: Json) {
    j == JNull || j == JStr("")
  }

  /** An export row as a JSON object. */
  datatype WireRow =
    | NotAnObject
    | WireRow(
        eventId: Json, exportSeq: Json, connectionId: Json, generation: Json, userId: Json, userTag: Json,
        nodeId: Json, instanceId: Json, host: Json, ip: Json, port: Json, network: Json,
        up: Json, dn: Json, startedAt: Json, lastSeen: Json, closedAt: Json)

  /** The last stderr object of an export; a missing key reads as null. */
  datatype Meta = Meta(
    ok: Json, error: Json, protocol: Json, cursorKind: Json, after: Json, maxSeq: Json, count: Json,
    nodeId: Json, instanceId: Json, nextCursor: Json)

  /** Times are integers in this model; on the wire a time is some non-blank text. */
  function Iso(t: int): string {
    "t" + IntText(t)
  }

  function OptionText(o: Option<string>): Json {
    if o.Some? then JStr(o.value) else JNull
  }

  function OptionInt(o: Option<int>): Json {
    if o.Some? then JInt(o.value) else JNull
  }

  /** What an export process leaves behind: exit code, stderr meta, stdout rows. */
  datatype Reply = Reply(code: int, meta: Option<Meta>, rows: Option<seq<WireRow>>)

  predicate IsHex(c: char) {
    '0' <= c <= '9' || 'a' <= c <= 'f'
  }

  /** The controller's UUID_RE: lower-case 8-4-4-4-12. */
  predicate IsUuid(s: string) {
    && |s| == 36
    && (forall i :: 0 <= i < 36 ==>
          if i == 8 || i == 13 || i == 18 || i == 23 then s[i] == '-' else IsHex(s[i]))
  }

  /** 8, 4, 4, 4 and 12 lower-case hexadecimal digits between hyphens. */
  lemma LowerUuidPattern(s: string)
    ensures IsUuid(s) <==>
              |s| == 36 && s[8] == '-' && s[13] == '-' && s[18] == '-' && s[23] == '-'
              && (forall c :: c in s[..8] + s[9..13] + s[14..18] + s[19..23] + s[24..] ==> 48 <= c as int <= 57 || 97 <= c as int <= 102)
  {
    if |s| == 36 {
      var hex := s[..8] + s[9..13] + s[14..18] + s[19..23] + s[24..];
      assert forall c :: IsHex(c) <==> 48 <= c as int <= 57 || 97 <= c as int <= 102;
      hide IsHex;
      if IsUuid(s) {
        forall c | c in hex ensures IsHex(c) {
          var i :| 0 <= i < |hex| && hex[i] == c;
          var j := if i < 8 then i else if i < 12 then i + 1 else if i < 16 then i + 2 else if i < 20 then i + 3 else i + 4;
          assert s[j] == c;
        }
      }
      if forall c :: c in hex ==> IsHex(c) {
        forall j | 0 <= j < 36 && j != 8 && j != 13 && j != 18 && j != 23 ensures IsHex(s[j]) {
          var i := if j < 8 then j else if j < 13 then j - 1 else if j < 18 then j - 2 else if j < 23 then j - 3 else j - 4;
          assert hex[i] == s[j] && hex[i] in hex;
        }
      }
    }
  }

  /* ---------- the text coercions on clean text ---------- */

  predicate Trimmed(s: string) {
    s != "" && !IsSpace(s[0]) && !IsSpace(s[|s| - 1])
  }

  lemma TrimmedText(s: string)
    requires Trimmed(s)
    ensures OptionalText(JStr(s)) == Some(s)
  {
    assert StripLeft(s) == s && StripRight(s) == s;
  }

  /** _optional_text of each kind of value. */
  lemma OptionalTexts(s: string, n: int)
    ensures OptionalText(JNull).None? && OptionalText(JInt(n)) == Some(IntText(n))
    ensures OptionalText(JBool(true)) == Some("True") && OptionalText(JBool(false)) == Some("False")
    ensures OptionalText(JStr(s)) == if Strip(s) == "" then None else Some(Strip(s))
  {
    IntTextIsTrimmed(n);
    TrimmedText(IntText(n));
    TrimmedText("True");
    TrimmedText("False");
    hide Strip;
  }

  lemma SpaceCharacters(c: char)
    ensures IsSpace(c) <==> c as int in {9, 10, 11, 12, 13, 28, 29, 30, 31, 32}
  {}

  /** Stripping takes white space off both ends and nothing else. */
  lemma {:induction false} StripTakes(s: string) returns (left: string, right: string)
    ensures s == left + Strip(s) + right
    ensures (forall c :: c in left ==> IsSpace(c)) && (forall c :: c in right ==> IsSpace(c))
    ensures Strip(s) == "" || Trimmed(Strip(s))
  {
    left := LeftTakes(s);
    right := RightTakes(StripLeft(s));
    StripKeepsFirst(StripLeft(s));
  }

  lemma {:induction false} LeftTakes(s: string) returns (left: string)
    ensures s == left + StripLeft(s) && forall c :: c in left ==> IsSpace(c)
    ensures StripLeft(s) == "" || !IsSpace(StripLeft(s)[0])
    decreases |s|
  {
    if s != "" && IsSpace(s[0]) {
      var rest := LeftTakes(s[1..]);
      left := [s[0]] + rest;
    } else {
      left := "";
    }
  }

  lemma {:induction false} RightTakes(s: string) returns (right: string)
    ensures s == StripRight(s) + right && forall c :: c in right ==> IsSpace(c)
    ensures StripRight(s) == "" || !IsSpace(StripRight(s)[|StripRight(s)| - 1])
    decreases |s|
  {
    if s != "" && IsSpace(s[|s| - 1]) {
      var rest := RightTakes(s[..|s| - 1]);
      right := rest + [s[|s| - 1]];
    } else {
      right := "";
    }
  }

  lemma {:induction false} StripKeepsFirst(s: string)
    ensures StripRight(s) <= s && (StripRight(s) != "" ==> StripRight(s)[0] == s[0])
    decreases |s|
  {
    if s != "" && IsSpace(s[|s| - 1]) { StripKeepsFirst(s[..|s| - 1]); }
  }

  /** A printed number reads back. */
  lemma IntRoundTrip(n: int)
    ensures ParseInt(IntText(n)) == Some(n)
  {
    hide Strip;
    IntTextIsTrimmed(n);
    TrimmedText(IntText(n));
    var m := if n < 0 then -n else n;
    DigitsReadBack(m);
    assert Digits(m)[0] in Digits(m);
    if n < 0 { assert ("-" + Digits(m))[1..] == Digits(m); }
  }

  /** int() of signed text. */
  lemma SignedIntegers(n: nat)
    ensures ParseInt("+" + Digits(n)) == Some(n) && ParseInt("-" + Digits(n)) == Some(0 - n)
  {
    SignedIsTrimmed("+", n);
    SignedIsTrimmed("-", n);
    DigitsReadBack(n);
    hide Strip, Digits, DigitsValue, ParseInt;
    SignReads(Digits(n), n);
  }

  lemma SignReads(digits: string, n: nat)
    requires DigitsValue(digits) == Some(n) && Strip("+" + digits) == "+" + digits && Strip("-" + digits) == "-" + digits
    ensures ParseInt("+" + digits) == Some(n) && ParseInt("-" + digits) == Some(0 - n)
  {
    hide Strip, DigitsValue;
    assert ("+" + digits)[1..] == digits && ("-" + digits)[1..] == digits;
  }

  lemma SignedIsTrimmed(sign: string, n: nat)
    requires sign in {"", "+", "-"}
    ensures Strip(sign + Digits(n)) == sign + Digits(n)
  {
    var s := sign + Digits(n);
    assert Digits(n)[0] in Digits(n) && Digits(n)[|Digits(n)| - 1] in Digits(n);
    assert s[|s| - 1] == Digits(n)[|Digits(n)| - 1];
    TrimmedText(s);
    hide Digits;
  }

  /** int() of the values that are no text. */
  lemma OtherIntegers(n: int)
    ensures IntOf(JBool(true)) == Some(1) && IntOf(JBool(false)) == Some(0) && IntOf(JInt(n)) == Some(n)
    ensures IntOf(JNull).None? && IntOf(JStr("")).None?
  {
    assert Strip("") == "";
  }

  /** The values that compare equal to an integer, and the false ones. */
  lemma EqualAndFalse(j: Json, n: int)
    ensures EqualsInt(j, n) <==>
              j == JInt(n) || (j == JBool(true) && n == 1) || (j == JBool(false) && n == 0) || (j.JOther? && j.equals == Some(n))
    ensures !Truthy(j) <==> j in {JNull, JBool(false), JInt(0), JStr("")} || (j.JOther? && !j.truthy)
  {}

  lemma {:induction false} DigitsReadBack(n: nat)
    ensures DigitsValue(Digits(n)) == Some(n)
    decreases n
  {
    var last := [('0' as int + n % 10) as char];
    if n >= 10 {
      DigitsReadBack(n / 10);
      assert Digits(n) == Digits(n / 10) + last;
      assert Digits(n)[..|Digits(n)| - 1] == Digits(n / 10);
    }
  }

  lemma {:induction false} IntTextIsTrimmed(n: int)
    ensures Trimmed(IntText(n)) && Trimmed(Iso(n))
  {
    var d := Digits(if n < 0 then -n else n);
    assert d[0] in d && d[|d| - 1] in d;
  }
}
