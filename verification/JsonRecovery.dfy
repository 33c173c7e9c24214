/** Recovery of a JSON value from a model's chatter: strip a code fence, strip what comes before the
    first bracket, cut at the bracket that closes it. */
module JsonRecovery {
  import opened Options

  // ---- White space

  /** The characters `str.strip` and the regular expression class \s take for white space. */
  predicate IsSpace(c: char) {
    '\t' <= c <= '\r' || '\U{1c}' <= c <= ' '
    || c in {'\U{85}', '\U{a0}', '\U{1680}', '\U{2028}', '\U{2029}', '\U{202f}', '\U{205f}', '\U{3000}'}
    || '\U{2000}' <= c <= '\U{200a}'
  }

  /** The code points Python counts as white space. */
  lemma SpacesAre(c: char)
    ensures IsSpace(c) <==>
            (c as int) in {0x09, 0x0A, 0x0B, 0x0C, 0x0D, 0x1C, 0x1D, 0x1E, 0x1F, 0x20, 0x85, 0xA0, 0x1680, 0x2000,
                           0x2001, 0x2002, 0x2003, 0x2004, 0x2005, 0x2006, 0x2007, 0x2008, 0x2009, 0x200A, 0x2028,
                           0x2029, 0x202F, 0x205F, 0x3000}
  {
  }

  function LStrip(s: string): string {
    if s != "" && IsSpace(s[0]) then LStrip(s[1..]) else s
  }

  function RStrip(s: string): string {
    if s != "" && IsSpace(s[|s| - 1]) then RStrip(s[..|s| - 1]) else s
  }

  function Strip(s: string): string {
    RStrip(LStrip(s))
  }

  predicate Blank(s: string) {
    forall i :: 0 <= i < |s| ==> IsSpace(s[i])
  }

  // ---- Code fences

  predicate FenceAt(s: string, i: nat) {
    i + 3 <= |s| && s[i] == '`' && s[i + 1] == '`' && s[i + 2] == '`'
  }

  /** The first fence at or after `i`. */
  function FindFence(s: string, i: nat): (r: Option<nat>)
    ensures r.Some? ==> i <= r.value && FenceAt(s, r.value) && forall k :: i <= k < r.value ==> !FenceAt(s, k)
    ensures r.None? ==> forall k :: i <= k ==> !FenceAt(s, k)
    decreases |s| - i
  {
    if i + 3 > |s| then None
    else if FenceAt(s, i) then Some(i)
    else FindFence(s, i + 1)
  }

  function SkipSpaces(s: string, i: nat): (r: nat)
    requires i <= |s|
    ensures i <= r <= |s|
    decreases |s| - i
  {
    if i < |s| && IsSpace(s[i]) then SkipSpaces(s, i + 1) else i
  }

  /** What the search for a fenced block finds: an opening fence with an optional "json" tag, white
      space, and the text up to the next fence. */
  function FencedBody(s: string): (r: Option<string>) {
    match FindFence(s, 0)
    case None => None
    case Some(i) =>
      var tagged := if i + 7 <= |s| && s[i + 3..i + 7] == "json" then i + 7 else i + 3;
      var from := SkipSpaces(s, tagged);
      match FindFence(s, from)
      case None => None
      case Some(k) => Some(s[from..k])
  }

  function StripFences(s: string): (string, bool) {
    match FencedBody(s)
    case None => (s, false)
    case Some(body) => (Strip(body), true)
  }

  // ---- The bracket scanner

  predicate IsOpen(c: char) {
    c == '{' || c == '['
  }

  function Closer(open: char): char {
    if open == '{' then '}' else ']'
  }

  datatype Scanner = Scanner(depth: int, inString: bool, escape: bool)

  /** One character of the scan. */
  function Advance(st: Scanner, c: char, open: char): Scanner {
    if st.escape then st.(escape := false)
    else if c == '\\' then st.(escape := true)
    else if c == '"' then st.(inString := !st.inString)
    else if st.inString then st
    else if c == open then st.(depth := st.depth + 1)
    else if c == Closer(open) then st.(depth := st.depth - 1)
    else st
  }

  /** The scan stops at this character: it closes the bracket the scan began with. */
  predicate Stops(st: Scanner, c: char, open: char) {
    !st.escape && c != '\\' && c != '"' && !st.inString && c != open && c == Closer(open) && st.depth == 1
  }

  /** The state after all of `s`, if the scan does not stop inside it. */
  function ScanAll(s: string, st: Scanner, open: char): Option<Scanner> {
    if s == "" then Some(st)
    else if Stops(st, s[0], open) then None
    else ScanAll(s[1..], Advance(st, s[0], open), open)
  }

  /** Where the scan stops. */
  function StopIndex(s: string, st: Scanner, open: char): (r: Option<nat>)
    ensures r.Some? ==> r.value < |s|
  {
    if s == "" then None
    else if Stops(st, s[0], open) then Some(0)
    else Shift(StopIndex(s[1..], Advance(st, s[0], open), open), 1)
  }

  lemma StopIndexStep(s: string, i: nat, st: Scanner, open: char)
    requires i < |s|
    ensures StopIndex(s[i..], st, open) ==
            if Stops(st, s[i], open) then Some(0) else Shift(StopIndex(s[i + 1..], Advance(st, s[i], open), open), 1)
  {
    assert s[i..][1..] == s[i + 1..];
  }

  function Shift(r: Option<nat>, n: nat): Option<nat> {
    match r case None => None case Some(k) => Some(k + n)
  }

  const BEGIN := Scanner(0, false, false)

  // ---- The stages

  /** The first `{` or `[` at or after `i`. */
  function FirstOpen(s: string, i: nat): (r: nat)
    requires i <= |s|
    ensures i <= r <= |s| && (r < |s| ==> IsOpen(s[r])) && forall k :: i <= k < r ==> !IsOpen(s[k])
    decreases |s| - i
  {
    if i == |s| || IsOpen(s[i]) then i else FirstOpen(s, i + 1)
  }

  function StripPrefix(s: string): (string, bool) {
    var i := FirstOpen(s, 0);
    if i == |s| || i == 0 then (s, false) else (s[i..], true)
  }

  function ExtractFirst(s: string): (string, bool) {
    var stripped := Strip(s);
    if stripped == "" || !IsOpen(stripped[0]) then (s, false)
    else match StopIndex(stripped, BEGIN, stripped[0])
      case None => (s, false)
      case Some(k) => (stripped[..k + 1], k + 1 != |stripped|)
  }

  function Sanitize(raw: string): (string, seq<string>) {
    var (unfenced, fence) := StripFences(Strip(raw));
    var (bare, prefix) := StripPrefix(unfenced);
    var (cut, first) := ExtractFirst(bare);
    (Strip(cut), StepNames(fence, prefix, first))
  }

  function StepNames(fence: bool, prefix: bool, first: bool): seq<string> {
    (if fence then ["strip_fence"] else []) + (if prefix then ["strip_prefix"] else [])
      + (if first then ["extract_first_object"] else [])
  }

  // ---- The loops

  method StripReasoningPrefix(text: string) returns (r: string, applied: bool)
    ensures (r, applied) == StripPrefix(text)
  {
    var i := 0;
    while i < |text|
      invariant i <= |text| && FirstOpen(text, 0) == FirstOpen(text, i)
    {
      if text[i] == '{' || text[i] == '[' {
        if i > 0 {
          return text[i..], true;
        }
        return text, false;
      }
      i := i + 1;
    }
    return text, false;
  }

  /** The scanner's loop: where the bracket that opens `s` is closed. */
  method ScanForClose(s: string, start: char, end: char) returns (r: Option<nat>)
    requires end == Closer(start)
    ensures r == StopIndex(s, BEGIN, start)
  {
    var depth, inString, escape := 0, false, false;
    assert s[0..] == s;
    for i := 0 to |s|
      invariant StopIndex(s, BEGIN, start) == Shift(StopIndex(s[i..], Scanner(depth, inString, escape), start), i)
    {
      var ch := s[i];
      ghost var st := Scanner(depth, inString, escape);
      StopIndexStep(s, i, st, start);
      if escape {
        escape := false;
      } else if ch == '\\' {
        escape := true;
      } else if ch == '"' {
        inString := !inString;
      } else if inString {
      } else if ch == start {
        depth := depth + 1;
      } else if ch == end {
        depth := depth - 1;
        if depth == 0 {
          return Some(i);
        }
      }
      assert Scanner(depth, inString, escape) == Advance(st, ch, start);
    }
    return None;
  }

  method ExtractFirstJsonObject(text: string) returns (r: string, truncated: bool)
    ensures (r, truncated) == ExtractFirst(text)
  {
    var stripped := Strip(text);
    if stripped == "" || !(stripped[0] == '{' || stripped[0] == '[') {
      return text, false;
    }
    var end := if stripped[0] == '{' then '}' else ']';
    var close := ScanForClose(stripped, stripped[0], end);
    match close {
      case None => return text, false;
      case Some(i) =>
        var candidate := stripped[..i + 1];
        return candidate, candidate != stripped;
    }
  }

  method SanitizeJson(raw: string) returns (text: string, steps: seq<string>)
    ensures (text, steps) == Sanitize(raw)
  {
    text := Strip(raw);
    steps := [];
    var fenced := StripFences(text);
    text := fenced.0;
    if fenced.1 {
      steps := steps + ["strip_fence"];
    }
    var fromPrefix, fromFirst;
    text, fromPrefix := StripReasoningPrefix(text);
    if fromPrefix {
      steps := steps + ["strip_prefix"];
    }
    text, fromFirst := ExtractFirstJsonObject(text);
    if fromFirst {
      steps := steps + ["extract_first_object"];
    }
    text := Strip(text);
    assert steps == StepNames(fenced.1, fromPrefix, fromFirst);
  }
}
