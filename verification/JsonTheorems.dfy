/** What the recovery promises: a JSON object or array comes out of the chatter exactly as it went in. */
module JsonTheorems {
  import opened Options
  import opened JsonGrammar
  import opened JsonRecovery

  // ---- Scanning across well-formed text

  lemma {:induction false} ScanConcat(a: string, b: string, st: Scanner, open: char)
    ensures ScanAll(a + b, st, open) ==
            match ScanAll(a, st, open) case None => None case Some(mid) => ScanAll(b, mid, open)
  {
    if a == "" {
      assert a + b == b;
    } else if !Stops(st, a[0], open) {
      assert (a + b)[1..] == a[1..] + b;
      ScanConcat(a[1..], b, Advance(st, a[0], open), open);
    }
  }

  lemma {:induction false} StopAfter(a: string, b: string, st: Scanner, open: char)
    requires ScanAll(a, st, open).Some?
    ensures StopIndex(a + b, st, open) ==
            match StopIndex(b, ScanAll(a, st, open).value, open) case None => None case Some(k) => Some(k + |a|)
  {
    if a == "" {
      assert a + b == b;
    } else {
      assert (a + b)[1..] == a[1..] + b;
      StopAfter(a[1..], b, Advance(st, a[0], open), open);
    }
  }

  /** Between tokens, at some depth inside the outer bracket. */
  predicate Between(st: Scanner) {
    !st.inString && !st.escape && st.depth >= 1
  }

  predicate Ordinary(c: char) {
    c != '"' && c != '\\' && c !in {'{', '}', '[', ']'}
  }

  lemma {:induction false} ScanOrdinary(s: string, st: Scanner, open: char)
    requires Between(st) && IsOpen(open) && forall i :: 0 <= i < |s| ==> Ordinary(s[i])
    ensures ScanAll(s, st, open) == Some(st)
  {
    if s != "" { ScanOrdinary(s[1..], st, open); }
  }

  lemma ScanNumber(n: Number, st: Scanner, open: char)
    requires Between(st) && IsOpen(open) && n.WellFormed()
    ensures ScanAll(n.Text(), st, open) == Some(st)
  {
    forall i | 0 <= i < |n.exponent| ensures Ordinary(n.exponent[i]) {
      if i >= 2 {
        assert n.exponent[i] == n.exponent[2..][i - 2] == n.exponent[1..][i - 1];
      } else if i == 1 {
        assert n.exponent[1] == n.exponent[1..][0];
      }
    }
    forall i | 0 <= i < |n.fraction| ensures Ordinary(n.fraction[i]) {
      if i >= 1 { assert n.fraction[i] == n.fraction[1..][i - 1]; }
    }
    ScanOrdinary(n.Text(), st, open);
  }

  lemma ScanChar(c: Char, st: Scanner, open: char)
    requires st.inString && !st.escape && c.WellFormed()
    ensures ScanAll(c.Text(), st, open) == Some(st)
  {
    match c
    case Unescaped(_) =>
    case Escaped(e) =>
      assert c.Text()[1..] == [e];
      assert ScanAll([e], st.(escape := true), open) == Some(st);
    case Unicode(hex) =>
      var s := c.Text();
      assert s[1..][1..] == hex;
      assert ScanAll(s, st, open) == ScanAll(hex, st, open);
      ScanHex(hex, st, open);
  }

  lemma {:induction false} ScanHex(s: string, st: Scanner, open: char)
    requires st.inString && !st.escape && forall i :: 0 <= i < |s| ==> IsHex(s[i])
    ensures ScanAll(s, st, open) == Some(st)
  {
    if s != "" { ScanHex(s[1..], st, open); }
  }

  lemma {:induction false} ScanChars(cs: Chars, st: Scanner, open: char)
    requires st.inString && !st.escape && GoodChars(cs)
    ensures ScanAll(CharsText(cs), st, open) == Some(st)
  {
    if cs != [] {
      ScanChar(cs[0], st, open);
      ScanChars(cs[1..], st, open);
      ScanConcat(cs[0].Text(), CharsText(cs[1..]), st, open);
    }
  }

  lemma ScanString(cs: Chars, st: Scanner, open: char)
    requires Between(st) && GoodChars(cs)
    ensures ScanAll(StringText(cs), st, open) == Some(st)
  {
    var inside := st.(inString := true);
    assert ScanAll("\"", st, open) == Some(inside);
    assert ScanAll("\"", inside, open) == Some(st);
    ScanChars(cs, inside, open);
    ScanConcat("\"", CharsText(cs), st, open);
    ScanConcat("\"" + CharsText(cs), "\"", st, open);
  }

  /** Three pieces that each leave the scanner where it was do so together. */
  lemma ScanThree(a: string, b: string, c: string, st: Scanner, open: char)
    requires ScanAll(a, st, open) == ScanAll(b, st, open) == ScanAll(c, st, open) == Some(st)
    ensures ScanAll(a + b + c, st, open) == Some(st)
  {
    ScanConcat(a, b, st, open);
    ScanConcat(a + b, c, st, open);
  }

  /** A bracketed text whose inside is balanced is itself skipped inside a larger one. */
  lemma ScanBracketed(left: string, inside: string, right: string, st: Scanner, open: char)
    requires Between(st) && IsOpen(open)
    requires (left == "{" && right == "}") || (left == "[" && right == "]")
    requires forall st' :: Between(st') ==> ScanAll(inside, st', open) == Some(st')
    ensures ScanAll(left + inside + right, st, open) == Some(st)
  {
    var deep := if left[0] == open then st.(depth := st.depth + 1) else st;
    assert ScanAll(left, st, open) == Some(deep);
    assert ScanAll(right, deep, open) == Some(st);
    ScanConcat(left, inside, st, open);
    ScanConcat(left + inside, right, st, open);
  }

  lemma ScanSeparator(ws1: string, sep: string, ws2: string, st: Scanner, open: char)
    requires Between(st) && IsOpen(open) && IsWs(ws1) && IsWs(ws2) && (sep == "," || sep == ":")
    ensures ScanAll(ws1 + sep + ws2, st, open) == Some(st)
  {
    ScanOrdinary(ws1 + sep + ws2, st, open);
  }

  /** A JSON value inside the outer bracket leaves the scanner's state as it was. */
  lemma {:induction false} ScanValue(v: Value, st: Scanner, open: char)
    requires Between(st) && IsOpen(open) && WellFormed(v)
    ensures ScanAll(Text(v), st, open) == Some(st)
    decreases v
  {
    match v
    case False => ScanOrdinary("false", st, open);
    case Null => ScanOrdinary("null", st, open);
    case True => ScanOrdinary("true", st, open);
    case Num(n) => ScanNumber(n, st, open);
    case Str(cs) => ScanString(cs, st, open);
    case EmptyArray(ws) =>
      forall st' | Between(st') ensures ScanAll(ws, st', open) == Some(st') { ScanOrdinary(ws, st', open); }
      ScanBracketed("[", ws, "]", st, open);
    case Array(ws, items) =>
      forall st' | Between(st') ensures ScanAll(ws + ItemsText(items), st', open) == Some(st') {
        ScanItems(ws, items, st', open);
      }
      ScanBracketed("[", ws + ItemsText(items), "]", st, open);
    case EmptyObject(ws) =>
      forall st' | Between(st') ensures ScanAll(ws, st', open) == Some(st') { ScanOrdinary(ws, st', open); }
      ScanBracketed("{", ws, "}", st, open);
    case Object(ws, members) =>
      forall st' | Between(st') ensures ScanAll(ws + MembersText(members), st', open) == Some(st') {
        ScanMembers(ws, members, st', open);
      }
      ScanBracketed("{", ws + MembersText(members), "}", st, open);
  }

  lemma {:induction false} ScanItems(ws: string, items: Items, st: Scanner, open: char)
    requires Between(st) && IsOpen(open) && IsWs(ws) && GoodItems(items)
    ensures ScanAll(ws + ItemsText(items), st, open) == Some(st)
    decreases items
  {
    ScanOrdinary(ws, st, open);
    ScanConcat(ws, ItemsText(items), st, open);
    ScanValue(items.value, st, open);
    match items
    case LastItem(v, end) =>
      ScanOrdinary(end, st, open);
      ScanConcat(Text(v), end, st, open);
    case Item(v, ws1, ws2, rest) =>
      ScanSeparator(ws1, ",", ws2, st, open);
      ScanItems("", rest, st, open);
      assert "" + ItemsText(rest) == ItemsText(rest);
      ScanThree(Text(v), ws1 + "," + ws2, ItemsText(rest), st, open);
  }

  lemma {:induction false} ScanMembers(ws: string, members: Members, st: Scanner, open: char)
    requires Between(st) && IsOpen(open) && IsWs(ws) && GoodMembers(members)
    ensures ScanAll(ws + MembersText(members), st, open) == Some(st)
    decreases members
  {
    ScanOrdinary(ws, st, open);
    ScanConcat(ws, MembersText(members), st, open);
    ScanPair(members.member, st, open);
    match members
    case LastMember(p, end) =>
      ScanOrdinary(end, st, open);
      ScanConcat(PairText(p), end, st, open);
    case Member(p, ws1, ws2, rest) =>
      ScanSeparator(ws1, ",", ws2, st, open);
      ScanMembers("", rest, st, open);
      assert "" + MembersText(rest) == MembersText(rest);
      ScanThree(PairText(p), ws1 + "," + ws2, MembersText(rest), st, open);
  }

  lemma {:induction false} ScanPair(p: Pair, st: Scanner, open: char)
    requires Between(st) && IsOpen(open) && GoodPair(p)
    ensures ScanAll(PairText(p), st, open) == Some(st)
    decreases p
  {
    ScanString(p.key, st, open);
    ScanSeparator(p.wsKey, ":", p.wsColon, st, open);
    ScanValue(p.value, st, open);
    ScanThree(StringText(p.key), p.wsKey + ":" + p.wsColon, Text(p.value), st, open);
  }

  lemma StopsAtCloser(open: char, inside: string, rest: string)
    requires IsOpen(open) && ScanAll(inside, Scanner(1, false, false), open) == Some(Scanner(1, false, false))
    ensures StopIndex([open] + inside + [Closer(open)] + rest, BEGIN, open) == Some(|inside| + 1)
  {
    var st, close := Scanner(1, false, false), [Closer(open)];
    assert ScanAll([open], BEGIN, open) == Some(st);
    ScanConcat([open], inside, BEGIN, open);
    assert [open] + inside + close + rest == ([open] + inside) + (close + rest);
    StopAfter([open] + inside, close + rest, BEGIN, open);
  }

  function Inside(v: Value): string
    requires IsContainer(v)
  {
    match v
    case EmptyArray(ws) => ws
    case Array(ws, items) => ws + ItemsText(items)
    case EmptyObject(ws) => ws
    case Object(ws, members) => ws + MembersText(members)
  }

  /** The scan of an object or array stops at its last character, whatever follows. */
  lemma ScanStopsAtEnd(v: Value, rest: string)
    requires WellFormed(v) && IsContainer(v)
    ensures IsOpen(Text(v)[0])
    ensures StopIndex(Text(v) + rest, BEGIN, Text(v)[0]) == Some(|Text(v)| - 1)
  {
    var open, st := if v.EmptyArray? || v.Array? then '[' else '{', Scanner(1, false, false);
    assert Text(v) == [open] + Inside(v) + [Closer(open)];
    match v {
      case Array(ws, items) => ScanItems(ws, items, st, open);
      case Object(ws, members) => ScanMembers(ws, members, st, open);
      case EmptyArray(ws) => ScanOrdinary(ws, st, open);
      case EmptyObject(ws) => ScanOrdinary(ws, st, open);
    }
    StopsAtCloser(open, Inside(v), rest);
  }

  // ---- White space around a value

  lemma {:induction false} LStripBefore(s: string, t: string)
    requires t != "" && !IsSpace(t[0])
    ensures LStrip(s + t) == LStrip(s) + t
  {
    if s == "" {
      assert s + t == t;
    } else if IsSpace(s[0]) {
      assert (s + t)[1..] == s[1..] + t;
      LStripBefore(s[1..], t);
    }
  }

  lemma {:induction false} RStripAfter(t: string, s: string)
    requires t != "" && !IsSpace(t[|t| - 1])
    ensures RStrip(t + s) == t + RStrip(s)
  {
    if s == "" {
      assert t + s == t;
    } else if IsSpace(s[|s| - 1]) {
      assert (t + s)[..|t + s| - 1] == t + s[..|s| - 1];
      RStripAfter(t, s[..|s| - 1]);
    }
  }

  /** White space is stripped on the outside of a text that neither begins nor ends with it. */
  lemma StripAround(before: string, t: string, after: string)
    requires t != "" && !IsSpace(t[0]) && !IsSpace(t[|t| - 1])
    ensures Strip(before + t + after) == LStrip(before) + t + RStrip(after)
  {
    assert before + t + after == before + (t + after);
    LStripBefore(before, t + after);
    assert LStrip(before) + (t + after) == (LStrip(before) + t) + after;
    RStripAfter(LStrip(before) + t, after);
  }

  lemma {:induction false} LStripIsSuffix(s: string) returns (k: nat)
    ensures k <= |s| && LStrip(s) == s[k..]
    ensures LStrip(s) == "" <==> Blank(s)
  {
    if s != "" && IsSpace(s[0]) {
      k := LStripIsSuffix(s[1..]);
      assert s[1..][k..] == s[k + 1..];
      assert Blank(s) <==> Blank(s[1..]) by {
        if Blank(s[1..]) {
          forall i | 0 <= i < |s| ensures IsSpace(s[i]) { if i > 0 { assert s[i] == s[1..][i - 1]; } }
        }
      }
      k := k + 1;
    } else {
      k := 0;
    }
  }

  lemma {:induction false} RStripIsPrefix(s: string) returns (k: nat)
    ensures k <= |s| && RStrip(s) == s[..k]
    ensures RStrip(s) == "" <==> Blank(s)
  {
    if s != "" && IsSpace(s[|s| - 1]) {
      var front := s[..|s| - 1];
      k := RStripIsPrefix(front);
      assert front[..k] == s[..k];
      assert Blank(s) <==> Blank(front);
    } else {
      k := |s|;
    }
  }

  lemma ContainerEnds(v: Value)
    requires IsContainer(v)
    ensures |Text(v)| >= 2 && IsOpen(Text(v)[0])
    ensures Text(v)[|Text(v)| - 1] == '}' || Text(v)[|Text(v)| - 1] == ']'
    ensures !IsSpace(Text(v)[0]) && !IsSpace(Text(v)[|Text(v)| - 1])
  {
  }

  // ---- The theorems

  predicate NoBracket(s: string) {
    forall i :: 0 <= i < |s| ==> !IsOpen(s[i])
  }

  predicate NoFence(s: string) {
    forall i :: 0 <= i < |s| ==> !FenceAt(s, i)
  }

  lemma ExtractValue(v: Value, after: string)
    requires WellFormed(v) && IsContainer(v)
    ensures ExtractFirst(Text(v) + after) == (Text(v), !Blank(after))
  {
    ContainerEnds(v);
    StripAround("", Text(v), after);
    assert "" + Text(v) + after == Text(v) + after;
    assert LStrip("") + Text(v) + RStrip(after) == Text(v) + RStrip(after);
    ScanStopsAtEnd(v, RStrip(after));
    var _ := RStripIsPrefix(after);
    assert (Text(v) + RStrip(after))[..|Text(v)|] == Text(v);
  }

  lemma PrefixStripped(before: string, v: Value, after: string)
    requires NoBracket(before) && IsContainer(v)
    ensures StripPrefix(before + Text(v) + after) == (Text(v) + after, before != "")
  {
    ContainerEnds(v);
    var s := before + Text(v) + after;
    assert s[|before|] == Text(v)[0];
    assert forall k :: 0 <= k < |before| ==> s[k] == before[k];
    assert s[|before|..] == Text(v) + after;
  }

  lemma StripIdempotentOn(t: string)
    requires t != "" && !IsSpace(t[0]) && !IsSpace(t[|t| - 1])
    ensures Strip(t) == t
  {
    StripAround("", t, "");
    assert "" + t + "" == t;
  }

  lemma NoFenceStripped(before: string, t: string, after: string)
    requires NoFence(before + t + after)
    ensures NoFence(LStrip(before) + t + RStrip(after))
  {
    var raw, text := before + t + after, LStrip(before) + t + RStrip(after);
    var i := LStripIsSuffix(before);
    var j := RStripIsPrefix(after);
    forall m | 0 <= m < |text| ensures text[m] == raw[i + m] {
      if m < |before| - i { assert text[m] == before[i..][m]; }
    }
    forall k | 0 <= k < |text| ensures !FenceAt(text, k) {
      assert !FenceAt(raw, i + k);
    }
  }

  /** For every JSON object or array, every prefix without a bracket and every suffix, with no code
      fence in the text, the recovered text is exactly the value; the prefix step is reported when
      there was a prefix to strip, the cut when there was something to cut off. */
  lemma SanitizeRecoversValue(before: string, v: Value, after: string)
    requires WellFormed(v) && IsContainer(v)
    requires NoBracket(before) && NoFence(before + Text(v) + after)
    ensures Sanitize(before + Text(v) + after) == (Text(v), StepNames(false, !Blank(before), !Blank(after)))
  {
    var t := Text(v);
    var b, a := LStrip(before), RStrip(after);
    ContainerEnds(v);
    StripAround(before, t, after);
    var _ := LStripIsSuffix(before);
    var text := b + t + a;
    NoFenceStripped(before, t, after);
    assert FencedBody(text) == None;
    PrefixStripped(b, v, a);
    ExtractValue(v, a);
    BlankStripped(after);
    StripIdempotentOn(t);
  }

  lemma BlankStripped(s: string)
    ensures Blank(RStrip(s)) <==> Blank(s)
  {
    var k := RStripIsPrefix(s);
    var m := RStripIsPrefix(RStrip(s));
    StripTwice(s);
  }

  lemma {:induction false} StripTwice(s: string)
    ensures RStrip(RStrip(s)) == RStrip(s)
  {
    if s != "" && IsSpace(s[|s| - 1]) { StripTwice(s[..|s| - 1]); }
  }

  // ---- Fenced values

  lemma {:induction false} SkipSpacesTo(s: string, i: nat, k: nat)
    requires i <= k < |s| && (forall m :: i <= m < k ==> IsSpace(s[m])) && !IsSpace(s[k])
    ensures SkipSpaces(s, i) == k
    decreases k - i
  {
    if i < k { SkipSpacesTo(s, i + 1, k); }
  }

  function Block(tag: string, ws: string, body: string): string {
    "```" + tag + ws + body + "```"
  }

  /** The parts of a fenced block in the text `s` around it: the fence at `i`, the body at `from`. */
  predicate Layout(s: string, b: string, tag: string, ws: string, body: string, from: nat) {
    && |b| + 3 + |tag| + |ws| == from && from + |body| + 3 <= |s|
    && (forall k :: 0 <= k < |b| ==> s[k] == b[k])
    && FenceAt(s, |b|)
    && s[|b| + 3..|b| + 3 + |tag|] == tag
    && (forall k :: 0 <= k < |ws| ==> s[from - |ws| + k] == ws[k])
    && (forall k :: 0 <= k < |body| ==> s[from + k] == body[k])
    && FenceAt(s, from + |body|)
  }

  lemma BlockLayout(b: string, tag: string, ws: string, body: string, a: string)
    ensures Layout(b + Block(tag, ws, body) + a, b, tag, ws, body, |b| + 3 + |tag| + |ws|)
  {
    var s := b + Block(tag, ws, body) + a;
    var from := |b| + 3 + |tag| + |ws|;
    assert s[|b|..|b| + 3] == "```";
    assert s[from + |body|..from + |body| + 3] == "```";
  }

  lemma TagRead(s: string, b: string, tag: string, ws: string, body: string, from: nat)
    requires Layout(s, b, tag, ws, body, from) && (tag == "" || tag == "json") && Blank(ws)
    requires body != "" && body[0] != 'j'
    ensures |b| + 3 + |tag| == if |b| + 7 <= |s| && s[|b| + 3..|b| + 7] == "json" then |b| + 7 else |b| + 3
  {
    if tag == "" {
      assert s[|b| + 3] != 'j' by {
        if ws == "" { assert s[from + 0] == body[0]; } else { assert s[from - |ws| + 0] == ws[0]; }
      }
      if |b| + 7 <= |s| { assert s[|b| + 3..|b| + 7][0] == s[|b| + 3]; }
    }
  }

  lemma NoFenceInBody(s: string, b: string, tag: string, ws: string, body: string, from: nat)
    requires Layout(s, b, tag, ws, body, from) && NoFence(body + "``")
    ensures forall k :: from <= k < from + |body| ==> !FenceAt(s, k)
  {
    forall k | from <= k < from + |body| ensures !FenceAt(s, k) {
      assert !FenceAt(body + "``", k - from);
      var to := from + |body|;
      assert forall m :: k <= m < k + 3 && m < to ==> s[m] == body[m - from];
      assert s[to] == '`' && s[to + 1] == '`';
    }
  }

  lemma NoFenceBefore(s: string, b: string, tag: string, ws: string, body: string, from: nat)
    requires Layout(s, b, tag, ws, body, from) && NoFence(b + "``")
    ensures forall k :: 0 <= k < |b| ==> !FenceAt(s, k)
  {
    forall k | 0 <= k < |b| ensures !FenceAt(s, k) {
      assert !FenceAt(b + "``", k);
      assert forall m :: k <= m < k + 3 && m < |b| ==> s[m] == b[m];
      assert s[|b|] == '`' && s[|b| + 1] == '`';
    }
  }

  lemma SpaceSkipped(s: string, b: string, tag: string, ws: string, body: string, from: nat)
    requires Layout(s, b, tag, ws, body, from) && Blank(ws) && body != "" && !IsSpace(body[0])
    ensures SkipSpaces(s, |b| + 3 + |tag|) == from
  {
    forall m | |b| + 3 + |tag| <= m < from ensures IsSpace(s[m]) {
      var k := m - (from - |ws|);
      assert s[from - |ws| + k] == ws[k];
    }
    assert s[from + 0] == body[0];
    SkipSpacesTo(s, |b| + 3 + |tag|, from);
  }

  lemma FencedBodyFound(s: string, b: string, tag: string, ws: string, body: string, from: nat)
    requires Layout(s, b, tag, ws, body, from) && NoFence(b + "``") && (tag == "" || tag == "json") && Blank(ws)
    requires body != "" && !IsSpace(body[0]) && body[0] != 'j' && NoFence(body + "``")
    ensures FencedBody(s) == Some(body)
  {
    TagRead(s, b, tag, ws, body, from);
    SpaceSkipped(s, b, tag, ws, body, from);
    NoFenceInBody(s, b, tag, ws, body, from);
    NoFenceBefore(s, b, tag, ws, body, from);
    BodyBetween(s, |b|, |b| + 3 + |tag|, from, from + |body|);
    assert s[from..from + |body|] == body;
  }

  lemma BodyBetween(s: string, i: nat, tagged: nat, from: nat, to: nat)
    requires FenceAt(s, i) && forall k :: 0 <= k < i ==> !FenceAt(s, k)
    requires tagged == if i + 7 <= |s| && s[i + 3..i + 7] == "json" then i + 7 else i + 3
    requires from == SkipSpaces(s, tagged) && from <= to && FenceAt(s, to)
    requires forall k :: from <= k < to ==> !FenceAt(s, k)
    ensures FencedBody(s) == Some(s[from..to])
  {
  }

  lemma NoFenceAcross(t: string, ws: string)
    requires NoFence(t) && t != "" && t[|t| - 1] != '`' && Blank(ws)
    ensures NoFence(t + ws + "``")
  {
    var s := t + ws + "``";
    forall i | 0 <= i < |s| ensures !FenceAt(s, i) {
      if i + 3 <= |t| { assert !FenceAt(t, i); }
      if |t| <= i < |t| + |ws| { assert s[i] == ws[i - |t|]; }
    }
  }

  /** A JSON object or array in a code fence, tagged or not, is recovered whatever surrounds the
      fence, as long as no earlier fence comes before it and the value holds no fence of its own. */
  lemma SanitizeUnwrapsFence(before: string, tag: string, ws1: string, v: Value, ws2: string, after: string)
    requires WellFormed(v) && IsContainer(v) && NoFence(Text(v))
    requires NoFence(before + "``") && (tag == "" || tag == "json") && Blank(ws1) && Blank(ws2)
    ensures Sanitize(before + Block(tag, ws1, Text(v) + ws2) + after) == (Text(v), ["strip_fence"])
  {
    var t := Text(v);
    ContainerEnds(v);
    NoFenceAcross(t, ws2);
    FencedBodyInRaw(before, tag, ws1, t + ws2, after);
    StripBlankTail(t, ws2);
    SanitizeUnfenced(before + Block(tag, ws1, t + ws2) + after, t + ws2, v);
  }

  lemma FencedBodyInRaw(before: string, tag: string, ws: string, body: string, after: string)
    requires NoFence(before + "``") && (tag == "" || tag == "json") && Blank(ws)
    requires body != "" && !IsSpace(body[0]) && body[0] != 'j' && NoFence(body + "``")
    ensures FencedBody(Strip(before + Block(tag, ws, body) + after)) == Some(body)
  {
    BlockEnds(tag, ws, body);
    BlockLayout(LStrip(before), tag, ws, body, RStrip(after));
    FencedBlockInRaw(before, Block(tag, ws, body), after, tag, ws, body);
  }

  lemma BlockEnds(tag: string, ws: string, body: string)
    ensures var block := Block(tag, ws, body); block != "" && !IsSpace(block[0]) && !IsSpace(block[|block| - 1])
  {
  }

  lemma LStripNoFence(s: string)
    requires NoFence(s + "``")
    ensures NoFence(LStrip(s) + "``")
  {
    assert s + "``" == s + "``" + "";
    NoFenceStripped(s, "``", "");
    assert LStrip(s) + "``" + RStrip("") == LStrip(s) + "``";
  }

  lemma FencedBlockInRaw(before: string, block: string, after: string, tag: string, ws: string, body: string)
    requires NoFence(before + "``") && (tag == "" || tag == "json") && Blank(ws)
    requires body != "" && !IsSpace(body[0]) && body[0] != 'j' && NoFence(body + "``")
    requires block != "" && !IsSpace(block[0]) && !IsSpace(block[|block| - 1])
    requires Layout(LStrip(before) + block + RStrip(after), LStrip(before), tag, ws, body,
                    |LStrip(before)| + 3 + |tag| + |ws|)
    ensures FencedBody(Strip(before + block + after)) == Some(body)
  {
    var b := LStrip(before);
    var text := b + block + RStrip(after);
    assert Strip(before + block + after) == text by { StripAround(before, block, after); }
    LStripNoFence(before);
    FencedBodyFound(text, b, tag, ws, body, |b| + 3 + |tag| + |ws|);
  }

  lemma StripBlankTail(t: string, ws: string)
    requires t != "" && !IsSpace(t[0]) && !IsSpace(t[|t| - 1]) && Blank(ws)
    ensures Strip(t + ws) == t
  {
    var _ := RStripIsPrefix(ws);
    StripAround("", t, ws);
    assert "" + t + ws == t + ws && LStrip("") + t + RStrip(ws) == t;
  }

  lemma SanitizeUnfenced(raw: string, body: string, v: Value)
    requires WellFormed(v) && IsContainer(v)
    requires FencedBody(Strip(raw)) == Some(body) && Strip(body) == Text(v)
    ensures Sanitize(raw) == (Text(v), ["strip_fence"])
  {
    var t := Text(v);
    assert "" + t + "" == t && t + "" == t;
    assert StripPrefix(t) == (t, false) by { PrefixStripped("", v, ""); }
    assert ExtractFirst(t) == (t, false) by { ExtractValue(v, ""); }
    assert Strip(t) == t by { ContainerEnds(v); StripIdempotentOn(t); }
    assert StripFences(Strip(raw)) == (t, true);
    assert StepNames(true, false, false) == ["strip_fence"];
  }
}
