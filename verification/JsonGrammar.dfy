/** The texts of RFC 8259: values as syntax trees that keep every character, white space included,
    and `Text`, the text a tree stands for.  A text is JSON exactly when it is the text of a
    well-formed tree. */
module JsonGrammar {

  /** Section 2: ws. */
  predicate IsWs(s: string) {
    forall i :: 0 <= i < |s| ==> s[i] in {' ', '\t', '\n', '\r'}
  }

  predicate AllDigits(s: string) {
    forall i :: 0 <= i < |s| ==> '0' <= s[i] <= '9'
  }

  /** Section 6: number = [ minus ] int [ frac ] [ exp ]. */
  datatype Number = Number(minus: bool, integer: string, fraction: string, exponent: string) {
    predicate WellFormed() {
      && integer != "" && AllDigits(integer) && (integer[0] == '0' ==> |integer| == 1)
      && (fraction != "" ==> |fraction| > 1 && fraction[0] == '.' && AllDigits(fraction[1..]))
      && (exponent != "" ==>
            && exponent[0] in {'e', 'E'} && |exponent| > 1
            && if exponent[1] in {'+', '-'} then |exponent| > 2 && AllDigits(exponent[2..])
               else AllDigits(exponent[1..]))
    }

    function Text(): string {
      (if minus then "-" else "") + integer + fraction + exponent
    }
  }

  predicate IsHex(c: char) {
    '0' <= c <= '9' || 'a' <= c <= 'f' || 'A' <= c <= 'F'
  }

  /** Section 7: one character of a string. */
  datatype Char = Unescaped(c: char) | Escaped(c: char) | Unicode(hex: string) {
    predicate WellFormed() {
      match this
      case Unescaped(c) => c >= ' ' && c != '"' && c != '\\'
      case Escaped(c) => c in {'"', '\\', '/', 'b', 'f', 'n', 'r', 't'}
      case Unicode(hex) => |hex| == 4 && forall i :: 0 <= i < 4 ==> IsHex(hex[i])
    }

    function Text(): string {
      match this
      case Unescaped(c) => [c]
      case Escaped(c) => ['\\', c]
      case Unicode(hex) => ['\\', 'u'] + hex
    }
  }

  type Chars = seq<Char>

  predicate GoodChars(cs: Chars) {
    forall i :: 0 <= i < |cs| ==> cs[i].WellFormed()
  }

  function CharsText(cs: Chars): string {
    if cs == [] then "" else cs[0].Text() + CharsText(cs[1..])
  }

  function StringText(cs: Chars): string {
    "\"" + CharsText(cs) + "\""
  }

  /** Sections 3 to 5. The strings named `ws...` are white space. */
  datatype Value =
    | False | Null | True
    | Num(number: Number)
    | Str(chars: Chars)
    | EmptyArray(ws: string)
    | Array(ws: string, items: Items)
    | EmptyObject(ws: string)
    | Object(ws: string, members: Members)

  datatype Items =
    | LastItem(value: Value, wsEnd: string)
    | Item(value: Value, wsBefore: string, wsAfter: string, rest: Items)

  datatype Members =
    | LastMember(member: Pair, wsEnd: string)
    | Member(member: Pair, wsBefore: string, wsAfter: string, rest: Members)

  datatype Pair = Pair(key: Chars, wsKey: string, wsColon: string, value: Value)

  predicate WellFormed(v: Value) {
    match v
    case False => true
    case Null => true
    case True => true
    case Num(n) => n.WellFormed()
    case Str(cs) => GoodChars(cs)
    case EmptyArray(ws) => IsWs(ws)
    case Array(ws, items) => IsWs(ws) && GoodItems(items)
    case EmptyObject(ws) => IsWs(ws)
    case Object(ws, members) => IsWs(ws) && GoodMembers(members)
  }

  predicate GoodItems(items: Items) {
    match items
    case LastItem(v, ws) => WellFormed(v) && IsWs(ws)
    case Item(v, ws1, ws2, rest) => WellFormed(v) && IsWs(ws1) && IsWs(ws2) && GoodItems(rest)
  }

  predicate GoodMembers(members: Members) {
    match members
    case LastMember(p, ws) => GoodPair(p) && IsWs(ws)
    case Member(p, ws1, ws2, rest) => GoodPair(p) && IsWs(ws1) && IsWs(ws2) && GoodMembers(rest)
  }

  predicate GoodPair(p: Pair) {
    GoodChars(p.key) && IsWs(p.wsKey) && IsWs(p.wsColon) && WellFormed(p.value)
  }

  function Text(v: Value): string {
    match v
    case False => "false"
    case Null => "null"
    case True => "true"
    case Num(n) => n.Text()
    case Str(cs) => StringText(cs)
    case EmptyArray(ws) => "[" + ws + "]"
    case Array(ws, items) => "[" + (ws + ItemsText(items)) + "]"
    case EmptyObject(ws) => "{" + ws + "}"
    case Object(ws, members) => "{" + (ws + MembersText(members)) + "}"
  }

  function ItemsText(items: Items): string {
    match items
    case LastItem(v, ws) => Text(v) + ws
    case Item(v, ws1, ws2, rest) => Text(v) + (ws1 + "," + ws2) + ItemsText(rest)
  }

  function MembersText(members: Members): string {
    match members
    case LastMember(p, ws) => PairText(p) + ws
    case Member(p, ws1, ws2, rest) => PairText(p) + (ws1 + "," + ws2) + MembersText(rest)
  }

  function PairText(p: Pair): string {
    StringText(p.key) + (p.wsKey + ":" + p.wsColon) + Text(p.value)
  }

  /** The values the recovery looks for. */
  predicate IsContainer(v: Value) {
    v.EmptyArray? || v.Array? || v.EmptyObject? || v.Object?
  }
}
