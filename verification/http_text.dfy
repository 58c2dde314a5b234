/** The printed header lines of ltm/hytext.c, and the parser that reads such lines back. A `char` stands for one byte. */
module HttpText {
  import opened Text
  import opened HttpHeaders
  import opened MachineWord

  function LineText(h: Header): string { h.key + ":" + h.val + "\r\n" }

  function HeaderText(hs: seq<Header>): string { if hs == [] then "" else LineText(hs[0]) + HeaderText(hs[1..]) }

  lemma {:induction false} HeaderTextAppends(hs: seq<Header>, h: Header)
    ensures HeaderText(hs + [h]) == HeaderText(hs) + LineText(h) && LineText(h) == h.key + ":" + h.val + "\r\n"
  {
    if hs == [] {
      assert hs + [h] == [h] && HeaderText([h][1..]) == "";
    } else {
      assert (hs + [h])[1..] == hs[1..] + [h];
      HeaderTextAppends(hs[1..], h);
    }
  }

  lemma {:induction false} HeaderTextPrefix(hs: seq<Header>, i: nat)
    requires i <= |hs|
    ensures |HeaderText(hs[..i])| <= |HeaderText(hs)|
  {
    if i > 0 {
      assert hs[..i][0] == hs[0] && hs[..i][1..] == hs[1..][..i - 1];
      HeaderTextPrefix(hs[1..], i - 1);
    }
  }

  // What snprintf leaves of a text in a buffer of the given size.
  function Cut(text: string, size: nat): (r: string)
    requires size > 0
    ensures r <= text && |r| == if |text| < size then |text| else size - 1
  {
    if |text| < size then text else text[..size - 1]
  }

  // The printing loop, behind a request line. It gives up as soon as a further line finds the buffer full, so a
  // last line that does not fit is cut and goes unnoticed.
  method PrintHeaders(first: string, hs: seq<Header>, size: nat) returns (ok: bool, pos: nat, text: string)
    requires size > 0
    ensures ok <==> hs == [] || |first + HeaderText(hs[..|hs| - 1])| < size
    ensures ok ==> pos == |first + HeaderText(hs)| && text == Cut(first + HeaderText(hs), size)
  {
    hide HeaderText, LineText, Cut;
    NoHeaderText();
    assert hs[..0] == [] && first + "" == first;
    pos, text := |first|, Cut(first, size);
    var i := 0;
    while i < |hs|
      invariant i <= |hs| && pos == |first + HeaderText(hs[..i])| && text == Cut(first + HeaderText(hs[..i]), size)
      invariant i > 0 ==> |first + HeaderText(hs[..i - 1])| < size
    {
      if size <= pos {
        HeaderTextPrefix(hs[..|hs| - 1], i);
        assert hs[..|hs| - 1][..i] == hs[..i];
        return false, pos, text;
      }
      HeaderTextAppends(hs[..i], hs[i]);
      assert hs[..i] + [hs[i]] == hs[..i + 1];
      CutJoin(first, HeaderText(hs[..i]), LineText(hs[i]), size);
      pos, text := pos + |LineText(hs[i])|, Cut(text + LineText(hs[i]), size);
      i := i + 1;
    }
    assert hs[..i] == hs;
    return true, pos, text;
  }

  lemma CutJoin(first: string, a: string, b: string, size: nat)
    requires |first + a| < size
    ensures Cut(first + a, size) == first + a && first + a + b == first + (a + b)
  {}

  lemma NoHeaderText()
    ensures HeaderText([]) == ""
  {}

  // The first place from i on, before e, that holds c; or that is no space; or that is a space; otherwise e.
  function IndexOf(s: string, c: char, i: nat, e: nat): (k: nat)
    requires i <= e <= |s|
    ensures i <= k <= e && (k < e ==> s[k] == c) && forall j :: i <= j < k ==> s[j] != c
    decreases e - i
  {
    if i == e || s[i] == c then i else IndexOf(s, c, i + 1, e)
  }

  function SkipSpace(s: string, i: nat, e: nat): (k: nat)
    requires i <= e <= |s|
    ensures i <= k <= e && (k < e ==> !IsSpace(s[k])) && forall j :: i <= j < k ==> IsSpace(s[j])
    decreases e - i
  {
    if i == e || !IsSpace(s[i]) then i else SkipSpace(s, i + 1, e)
  }

  function GrabText(s: string, i: nat, e: nat): (k: nat)
    requires i <= e <= |s|
    ensures i <= k <= e && (k < e ==> IsSpace(s[k])) && forall j :: i <= j < k ==> !IsSpace(s[j])
    decreases e - i
  {
    if i == e || IsSpace(s[i]) then i else GrabText(s, i + 1, e)
  }

  // A parsed line: its key, where its value starts, how long that is in 32 bits, and where the parser goes on.
  datatype Line = Line(key: string, at: nat, len: nat, next: nat)

  // The end of a value: at the line break, or at the carriage return before it.
  function ValueEnd(s: string, c: nat): (e: nat)
    requires 0 < c <= |s|
    ensures c - 1 <= e <= |s|
  {
    var nl := IndexOf(s, '\n', c, |s|);
    if s[nl - 1] == '\r' then nl - 1 else nl
  }

  function LineAt(s: string, start: nat, sep: nat): (p: Line)
    requires start <= sep < |s|
    ensures sep <= p.next <= |s|
  {
    var a := SkipSpace(s, start, sep);
    var c := SkipSpace(s, sep + 1, |s|);
    var e := ValueEnd(s, c);
    Line(s[a..GrabText(s, a, sep)], c, (e - c) % WORD, e)
  }

  function Parse(s: string, start: nat, n: nat): seq<Line>
    requires start <= |s|
    decreases n
  {
    var sep := IndexOf(s, ':', start, |s|);
    if n == 0 || sep == |s| then [] else [LineAt(s, start, sep)] + Parse(s, LineAt(s, start, sep).next, n - 1)
  }

  // The loops of the source's macros.
  method StripSpace(s: string, start: nat, end: nat) returns (k: nat)
    requires start <= end <= |s|
    ensures k == SkipSpace(s, start, end)
  {
    k := start;
    while k < end && IsSpace(s[k])
      invariant start <= k <= end && SkipSpace(s, k, end) == SkipSpace(s, start, end)
    {
      k := k + 1;
    }
  }

  method TakeText(s: string, start: nat, end: nat) returns (k: nat)
    requires start <= end <= |s|
    ensures k == GrabText(s, start, end)
  {
    k := start;
    while k < end && !IsSpace(s[k])
      invariant start <= k <= end && GrabText(s, k, end) == GrabText(s, start, end)
    {
      k := k + 1;
    }
  }

  method SkipTo(s: string, c: char, start: nat, end: nat) returns (k: nat)
    requires start <= end <= |s|
    ensures k == IndexOf(s, c, start, end)
  {
    k := start;
    while k < end && s[k] != c
      invariant start <= k <= end && IndexOf(s, c, k, end) == IndexOf(s, c, start, end)
    {
      k := k + 1;
    }
  }

  // At most n lines.
  method GiveKv(s: string, n: nat) returns (lines: seq<Line>)
    ensures lines == Parse(s, 0, n) && |lines| <= n
  {
    hide Parse, LineAt, IndexOf;
    lines := [];
    var start: nat, i: nat := 0, 0;
    ParseStops(s, 0, n);
    while start < |s| && i < n
      invariant i == |lines| <= n && start <= |s|
      invariant Parse(s, 0, n) == lines + Parse(s, start, n - i)
      invariant start == |s| || i == n ==> Parse(s, start, n - i) == []
      decreases n - i
    {
      ParseStops(s, start, n - i);
      ghost var m := n - i;
      var sep := SkipTo(s, ':', start, |s|);
      if sep == |s| {
        return;
      }
      ghost var from := start;
      var line := GiveLine(s, start, sep);
      ParseGoesOn(s, from, m);
      lines := lines + [line];
      start, i := line.next, i + 1;
      ParseStops(s, start, n - i);
    }
  }

  // One turn of that loop, behind the search for the colon.
  method GiveLine(s: string, from: nat, sep: nat) returns (line: Line)
    requires from <= sep < |s|
    ensures line == LineAt(s, from, sep)
  {
    hide SkipSpace, GrabText, IndexOf;
    var a := StripSpace(s, from, sep);
    var b := TakeText(s, a, sep);
    var start := sep + 1;
    var c := StripSpace(s, start, |s|);
    start := SkipTo(s, '\n', c, |s|);
    if s[start - 1] == '\r' {
      start := start - 1;
    }
    line := Line(s[a..b], c, (start - c) % WORD, start);
  }

  lemma ParseStops(s: string, start: nat, n: nat)
    requires start <= |s|
    ensures n == 0 || IndexOf(s, ':', start, |s|) == |s| ==> Parse(s, start, n) == []
  {}

  lemma ParseGoesOn(s: string, start: nat, n: nat)
    requires start <= |s| && n > 0 && IndexOf(s, ':', start, |s|) < |s|
    ensures var line := LineAt(s, start, IndexOf(s, ':', start, |s|));
            Parse(s, start, n) == [line] + Parse(s, line.next, n - 1)
  {
    hide LineAt, IndexOf;
  }

  // A value lies inside the text unless nothing but white space follows the colon and the text ends in a
  // carriage return; then its length wraps to 2^32 - 1.
  lemma ValueInText(s: string, start: nat, sep: nat)
    requires start <= sep < |s| < WORD
    ensures var line := LineAt(s, start, sep);
            line.at + line.len <= |s| <==> !(SkipSpace(s, sep + 1, |s|) == |s| && s[|s| - 1] == '\r')
  {
    hide GrabText;
    var c := SkipSpace(s, sep + 1, |s|);
    if c < |s| {
      ValueEndsLater(s, c);
      SmallMod(ValueEnd(s, c) - c);
    } else {
      assert IndexOf(s, '\n', c, |s|) == |s|;
    }
  }

  lemma ValueEndsLater(s: string, c: nat)
    requires 0 < c < |s| && !IsSpace(s[c])
    ensures c <= ValueEnd(s, c)
  {
    hide IndexOf;
    if IndexOf(s, '\n', c, |s|) == c {
      assert false;
    }
  }

  lemma SmallMod(n: nat)
    requires n < WORD
    ensures n % WORD == n
  {}

  lemma BlankValue()
    ensures var s := "a:\r"; Parse(s, 0, 16) == [Line("a", 3, WORD - 1, 2)]
  {
    hide Parse, LineAt;
    var s := "a:\r";
    IndexOfIs(s, ':', 0, 3, 1);
    ParseGoesOn(s, 0, 16);
    BlankLine();
    IndexOfIs(s, ':', 2, 3, 3);
    ParseStops(s, 2, 15);
  }

  lemma BlankLine()
    ensures LineAt("a:\r", 0, 1) == Line("a", 3, WORD - 1, 2)
  {
    hide SkipSpace, GrabText, IndexOf;
    var s := "a:\r";
    SkipSpaceIs(s, 0, 1, 0);
    GrabTextIs(s, 0, 1, 1);
    SkipSpaceIs(s, 2, 3, 3);
    IndexOfIs(s, '\n', 3, 3, 3);
    assert s[0..1] == "a";
  }

  // Headers that the format can carry.
  predicate Printable(h: Header) { CleanKey(h.key) && CleanValue(h.val) }

  predicate CleanKey(k: string) { forall i :: 0 <= i < |k| ==> !IsSpace(k[i]) && k[i] != ':' }

  predicate CleanValue(v: string) { v != "" && !IsSpace(v[0]) && '\n' !in v && |v| < WORD }

  predicate AllSpace(w: string) { forall i :: 0 <= i < |w| ==> IsSpace(w[i]) }

  // Where the parts of one printed line lie, after white space left over, and before anything else.
  ghost predicate LiesAt(s: string, start: nat, w: string, h: Header, rest: string) {
    && start + |w| + |h.key| + |h.val| + 3 <= |s|
    && s[start..start + |w|] == w
    && (var sep := start + |w| + |h.key|;
        && s[start + |w|..sep] == h.key && s[sep] == ':'
        && s[sep + 1..sep + 1 + |h.val|] == h.val
        && s[sep + 1 + |h.val|] == '\r' && s[sep + 2 + |h.val|] == '\n'
        && s[sep + 1 + |h.val|..] == "\r\n" + rest)
  }

  lemma Lies(s: string, start: nat, w: string, h: Header, rest: string)
    requires start <= |s| && s[start..] == w + LineText(h) + rest
    ensures LiesAt(s, start, w, h, rest)
  {
    var end := "\r\n" + rest;
    KeyFirst(w, h, rest);
    SplitAt(s, start, w, h.key + (":" + (h.val + end)));
    var k := start + |w|;
    SplitAt(s, k, h.key, ":" + (h.val + end));
    SplitAt(s, k + |h.key|, ":", h.val + end);
    var v := k + |h.key| + 1;
    SplitAt(s, v, h.val, end);
    SliceAt(s, v - 1, ":", v - 1);
    LineEnds(s, v + |h.val|, rest);
  }

  lemma KeyFirst(w: string, h: Header, rest: string)
    ensures w + LineText(h) + rest == w + (h.key + (":" + (h.val + ("\r\n" + rest))))
  {
    var end := "\r\n" + rest;
    assert (":" + h.val + "\r\n") + rest == ":" + (h.val + end);
    assert LineText(h) == h.key + (":" + h.val + "\r\n");
    assert (h.key + (":" + h.val + "\r\n")) + rest == h.key + ((":" + h.val + "\r\n") + rest);
    assert (w + LineText(h)) + rest == w + (LineText(h) + rest);
  }

  lemma LineEnds(s: string, i: nat, rest: string)
    requires i <= |s| && s[i..] == "\r\n" + rest
    ensures i + 2 <= |s| && s[i] == '\r' && s[i + 1] == '\n'
  {
    assert s[i] == s[i..][0] && s[i + 1] == s[i..][1];
  }

  lemma SplitAt(s: string, start: nat, a: string, b: string)
    requires start <= |s| && s[start..] == a + b
    ensures start + |a| <= |s| && s[start..start + |a|] == a && s[start + |a|..] == b
  {
    assert s[start..][..|a|] == a && s[start..][|a|..] == b;
  }

  // Slices, character by character.
  lemma SliceAt(s: string, i: nat, t: string, j: nat)
    requires i + |t| <= |s| && s[i..i + |t|] == t && i <= j < i + |t|
    ensures s[j] == t[j - i]
  {
    assert s[i..i + |t|][j - i] == s[j];
  }

  lemma KeyPart(s: string, start: nat, w: string, h: Header, rest: string)
    requires LiesAt(s, start, w, h, rest) && AllSpace(w) && CleanKey(h.key)
    ensures var sep := start + |w| + |h.key|;
            && IndexOf(s, ':', start, |s|) == sep
            && SkipSpace(s, start, sep) == start + |w|
            && GrabText(s, start + |w|, sep) == sep
  {
    var sep := start + |w| + |h.key|;
    forall j | start <= j < start + |w| ensures IsSpace(s[j]) && s[j] != ':' {
      SliceAt(s, start, w, j);
    }
    forall j | start + |w| <= j < sep ensures !IsSpace(s[j]) && s[j] != ':' {
      SliceAt(s, start + |w|, h.key, j);
    }
    IndexOfIs(s, ':', start, |s|, sep);
    SkipSpaceIs(s, start, sep, start + |w|);
    GrabTextIs(s, start + |w|, sep, sep);
  }

  // What the parser takes for the key, and what is left behind the colon.
  lemma KeyOf(s: string, start: nat, w: string, h: Header, rest: string)
    requires start <= |s| && s[start..] == w + LineText(h) + rest && AllSpace(w) && CleanKey(h.key)
    ensures var sep := start + |w| + |h.key|;
            && sep + |h.val| + 3 <= |s| && IndexOf(s, ':', start, |s|) == sep && LineAt(s, start, sep).key == h.key
            && s[sep + 1..] == h.val + ("\r\n" + rest)
  {
    hide IndexOf, SkipSpace, GrabText, ValueEnd, LineText, AllSpace, CleanKey;
    Lies(s, start, w, h, rest);
    KeyPart(s, start, w, h, rest);
    var v := start + |w| + |h.key| + 1;
    assert s[v..] == s[v..v + |h.val|] + s[v + |h.val|..];
  }

  lemma ValueOf(s: string, start: nat, sep: nat, v: string, rest: string)
    requires start <= sep < |s| && s[sep + 1..] == v + ("\r\n" + rest) && CleanValue(v)
    ensures var p := LineAt(s, start, sep);
            p.at + p.len <= |s| && s[p.at..p.at + p.len] == v && s[p.next..] == "\r\n" + rest
  {
    hide IndexOf, SkipSpace, GrabText;
    SplitAt(s, sep + 1, v, "\r\n" + rest);
    LineEnds(s, sep + 1 + |v|, rest);
    ValueAt(s, sep + 1, v);
    SmallMod(|v|);
  }

  lemma ValueAt(s: string, v: nat, val: string)
    requires 0 < v && v + |val| + 2 <= |s| && s[v..v + |val|] == val && s[v + |val|] == '\r' && s[v + |val| + 1] == '\n'
    requires val != "" && !IsSpace(val[0]) && '\n' !in val
    ensures SkipSpace(s, v, |s|) == v && IndexOf(s, '\n', v, |s|) == v + |val| + 1
  {
    hide IndexOf, SkipSpace;
    forall j | v <= j < v + |val| ensures s[j] != '\n' {
      SliceAt(s, v, val, j);
      assert val[j - v] in val;
    }
    SliceAt(s, v, val, v);
    SkipSpaceIs(s, v, |s|, v);
    IndexOfIs(s, '\n', v, |s|, v + |val| + 1);
  }

  // A parsed line that gives back a header.
  predicate GivesBack(s: string, p: Line, h: Header) {
    p.key == h.key && p.at + p.len <= |s| && s[p.at..p.at + p.len] == h.val
  }

  lemma ParsePrintedLine(s: string, start: nat, w: string, h: Header, rest: string)
    requires start <= |s| && s[start..] == w + LineText(h) + rest && AllSpace(w) && Printable(h)
    ensures IndexOf(s, ':', start, |s|) < |s|
    ensures var p := LineAt(s, start, IndexOf(s, ':', start, |s|));
            GivesBack(s, p, h) && s[p.next..] == "\r\n" + rest
  {
    hide LineAt, LineText, AllSpace, CleanKey, CleanValue, IndexOf;
    KeyOf(s, start, w, h, rest);
    ValueOf(s, start, start + |w| + |h.key|, h.val, rest);
  }

  lemma {:induction false} IndexOfIs(s: string, c: char, i: nat, e: nat, k: nat)
    requires i <= k <= e <= |s| && (k < e ==> s[k] == c) && forall j :: i <= j < k ==> s[j] != c
    ensures IndexOf(s, c, i, e) == k
  {
    var f := IndexOf(s, c, i, e);
    assert f < e ==> s[f] == c;
  }

  lemma {:induction false} SkipSpaceIs(s: string, i: nat, e: nat, k: nat)
    requires i <= k <= e <= |s| && (k < e ==> !IsSpace(s[k])) && forall j :: i <= j < k ==> IsSpace(s[j])
    ensures SkipSpace(s, i, e) == k
  {
    var f := SkipSpace(s, i, e);
    assert f < e ==> !IsSpace(s[f]);
  }

  lemma {:induction false} GrabTextIs(s: string, i: nat, e: nat, k: nat)
    requires i <= k <= e <= |s| && (k < e ==> IsSpace(s[k])) && forall j :: i <= j < k ==> !IsSpace(s[j])
    ensures GrabText(s, i, e) == k
  {
    var f := GrabText(s, i, e);
    assert f < e ==> IsSpace(s[f]);
  }

  // Printed headers are read back in order, as far as there is room; what follows holds no colon.
  lemma {:induction false} ParsePrinted(s: string, start: nat, w: string, hs: seq<Header>, tail: string, n: nat)
    requires start <= |s| && s[start..] == w + HeaderText(hs) + tail && AllSpace(w) && ':' !in tail
    requires forall i :: 0 <= i < |hs| ==> Printable(hs[i])
    ensures var lines := Parse(s, start, n);
            && |lines| == (if n < |hs| then n else |hs|)
            && forall i :: 0 <= i < |lines| ==> GivesBack(s, lines[i], hs[i])
    decreases |hs|
  {
    hide LineAt, LineText, Printable, IndexOf, Parse, GivesBack;
    if hs == [] {
      NoColonIn(w, tail);
      assert w + "" + tail == w + tail;
      NoColon(s, start, w + tail);
      ParseStops(s, start, n);
    } else if n == 0 {
      ParseStops(s, start, n);
    } else {
      var rest := HeaderText(hs[1..]) + tail;
      assert w + HeaderText(hs) + tail == w + LineText(hs[0]) + rest;
      ParsePrintedLine(s, start, w, hs[0], rest);
      ParseGoesOn(s, start, n);
      var next := LineAt(s, start, IndexOf(s, ':', start, |s|)).next;
      assert "\r\n" + rest == "\r\n" + HeaderText(hs[1..]) + tail;
      ParsePrinted(s, next, "\r\n", hs[1..], tail, n - 1);
    }
  }

  lemma NoColonIn(w: string, tail: string)
    requires AllSpace(w) && ':' !in tail
    ensures ':' !in w + tail
  {}

  lemma NoColon(s: string, start: nat, t: string)
    requires start <= |s| && s[start..] == t && ':' !in t
    ensures IndexOf(s, ':', start, |s|) == |s|
  {
    forall j | start <= j < |s| ensures s[j] != ':' {
      assert s[j] == t[j - start];
    }
    IndexOfIs(s, ':', start, |s|, |s|);
  }

  // What was printed parses to the same headers in the same order, up to the number of lines there is room for.
  lemma HeaderRoundTrip(hs: seq<Header>, tail: string, n: nat)
    requires (forall i :: 0 <= i < |hs| ==> Printable(hs[i])) && ':' !in tail
    ensures var s := HeaderText(hs) + tail;
            var lines := Parse(s, 0, n);
            && |lines| == (if n < |hs| then n else |hs|)
            && forall i :: 0 <= i < |lines| ==> GivesBack(s, lines[i], hs[i])
  {
    hide HeaderText, Printable, Parse, GivesBack;
    var s := HeaderText(hs) + tail;
    assert s[0..] == "" + HeaderText(hs) + tail;
    ParsePrinted(s, 0, "", hs, tail, n);
  }

  // Whatever is read has a key without colon and white space; and a value, if it is not empty, that starts with no
  // white space, holds no line break and is not too long.
  predicate Readable(h: Header) { CleanKey(h.key) && (h.val == "" || CleanValue(h.val)) }

  lemma ReadKey(s: string, start: nat, h: Header)
    requires start <= |s| && IndexOf(s, ':', start, |s|) < |s|
    requires GivesBack(s, LineAt(s, start, IndexOf(s, ':', start, |s|)), h)
    ensures CleanKey(h.key)
  {
    hide ValueEnd;
    var sep := IndexOf(s, ':', start, |s|);
    var a := SkipSpace(s, start, sep);
    var b := GrabText(s, a, sep);
    assert h.key == s[a..b];
    forall i | 0 <= i < |h.key| ensures !IsSpace(h.key[i]) && h.key[i] != ':' {
      assert h.key[i] == s[a + i];
    }
  }

  lemma ReadValue(s: string, start: nat, sep: nat, h: Header)
    requires start <= sep < |s| && GivesBack(s, LineAt(s, start, sep), h) && h.val != ""
    ensures CleanValue(h.val)
  {
    hide IndexOf, SkipSpace, GrabText, ValueEnd;
    var line := LineAt(s, start, sep);
    assert line.at < |s| && h.val[0] == s[line.at];
    ValueEndsLater(s, line.at);
    SmallOrWrapped(s, line.at);
    forall i | 0 <= i < |h.val| ensures h.val[i] != '\n' {
      assert h.val[i] == s[line.at + i];
    }
  }

  lemma SmallOrWrapped(s: string, c: nat)
    requires 0 < c < |s| && c <= ValueEnd(s, c)
    ensures (ValueEnd(s, c) - c) % WORD <= ValueEnd(s, c) - c
    ensures forall j :: c <= j < ValueEnd(s, c) ==> s[j] != '\n'
  {
    hide IndexOf;
    ModAtMost(ValueEnd(s, c) - c);
  }

  lemma ModAtMost(n: nat)
    ensures n % WORD <= n
  {}

  lemma {:induction false} ReadHeaders(s: string, start: nat, n: nat, i: nat, h: Header)
    requires start <= |s| && i < |Parse(s, start, n)| && GivesBack(s, Parse(s, start, n)[i], h)
    ensures Readable(h)
    decreases i
  {
    hide LineAt, IndexOf, GivesBack, CleanKey, CleanValue;
    ParseStops(s, start, n);
    ParseGoesOn(s, start, n);
    var sep := IndexOf(s, ':', start, |s|);
    if i == 0 {
      ReadKey(s, start, h);
      if h.val != "" {
        ReadValue(s, start, sep, h);
      }
    } else {
      ReadHeaders(s, LineAt(s, start, sep).next, n - 1, i - 1, h);
    }
  }

  // An empty value is taken from what follows: from the next line, which is then no line of its own ...
  lemma EmptyTakesLine(s: string, start: nat, w: string, h: Header, h': Header, rest: string)
    requires start <= |s| && s[start..] == w + LineText(h) + (LineText(h') + rest) && AllSpace(w)
    requires CleanKey(h.key) && h.val == "" && Readable(h')
    ensures IndexOf(s, ':', start, |s|) < |s|
    ensures s[LineAt(s, start, IndexOf(s, ':', start, |s|)).next..] == "\r\n" + rest
  {
    hide LineAt, IndexOf, SkipSpace, ValueEnd, LineText, AllSpace, CleanKey, CleanValue, IsSpace;
    var t := h'.key + ":" + h'.val;
    LineTextParts(h', rest);
    KeyOf(s, start, w, h, t + ("\r\n" + rest));
    NextOf(s, start, start + |w| + |h.key|);
    TextOfLine(h');
    assert h.val + ("\r\n" + (t + ("\r\n" + rest))) == "\r\n" + (t + ("\r\n" + rest));
    EmptyThenLine(s, start + |w| + |h.key|, t, rest);
  }

  lemma NextOf(s: string, start: nat, sep: nat)
    requires start <= sep < |s|
    ensures LineAt(s, start, sep).next == ValueEnd(s, SkipSpace(s, sep + 1, |s|))
  {}

  lemma EmptyThenLine(s: string, sep: nat, t: string, rest: string)
    requires sep + 3 <= |s| && s[sep + 1..] == "\r\n" + (t + ("\r\n" + rest))
    requires t != "" && !IsSpace(t[0]) && '\n' !in t
    ensures SkipSpace(s, sep + 1, |s|) == sep + 3
    ensures s[ValueEnd(s, sep + 3)..] == "\r\n" + rest
  {
    hide IndexOf, SkipSpace, IsSpace;
    EmptySkips(s, sep, t + ("\r\n" + rest));
    var c := sep + 3;
    SplitAt(s, c, t, "\r\n" + rest);
    LineEnds(s, c + |t|, rest);
    ValueAt(s, c, t);
  }

  lemma LineTextParts(h: Header, rest: string)
    ensures LineText(h) + rest == (h.key + ":" + h.val) + ("\r\n" + rest)
  {}

  lemma TextOfLine(h: Header)
    requires Readable(h)
    ensures var t := h.key + ":" + h.val; t != "" && !IsSpace(t[0]) && '\n' !in t
  {
    assert forall i :: 0 <= i < |h.key| ==> h.key[i] != '\n';
  }

  // ... or from the text behind.
  lemma EmptyTakesTail(s: string, start: nat, w: string, h: Header)
    requires start <= |s| && s[start..] == w + LineText(h) + "x" && AllSpace(w) && CleanKey(h.key) && h.val == ""
    ensures IndexOf(s, ':', start, |s|) < |s|
    ensures var line := LineAt(s, start, IndexOf(s, ':', start, |s|)); line.len == 1 && line.next == |s|
  {
    hide LineAt, IndexOf, LineText, AllSpace, CleanKey;
    KeyOf(s, start, w, h, "x");
    TailOf(s, start, start + |w| + |h.key|);
  }

  lemma TailOf(s: string, start: nat, sep: nat)
    requires start <= sep < |s| && |s| == sep + 4 && s[sep + 1..] == "\r\n" + "x"
    ensures LineAt(s, start, sep).len == 1 && LineAt(s, start, sep).next == |s|
  {
    hide IndexOf, SkipSpace, GrabText;
    EmptySkips(s, sep, "x");
    assert s[sep + 3] == s[sep + 3..][0] == 'x';
    IndexOfIs(s, '\n', sep + 3, |s|, |s|);
  }

  lemma EmptySkips(s: string, sep: nat, rest: string)
    requires sep + 3 <= |s| && s[sep + 1..] == "\r\n" + rest && rest != "" && !IsSpace(rest[0])
    ensures SkipSpace(s, sep + 1, |s|) == sep + 3 && s[sep + 3..] == rest
  {
    var c := sep + 3;
    LineEnds(s, sep + 1, rest);
    SplitAt(s, sep + 1, "\r\n", rest);
    assert s[c] == s[c..][0];
    SkipSpaceIs(s, sep + 1, |s|, c);
  }

  // So there are never more lines than headers.
  lemma {:induction false} LinesAtMost(s: string, start: nat, w: string, hs: seq<Header>, n: nat)
    requires start <= |s| && s[start..] == w + HeaderText(hs) + "x" && AllSpace(w)
    requires forall i :: 0 <= i < |hs| ==> Readable(hs[i])
    ensures |Parse(s, start, n)| <= |hs|
    decreases |hs|
  {
    hide LineAt, LineText, Readable, CleanKey, CleanValue, IndexOf, Parse;
    ParseStops(s, start, n);
    if hs == [] {
      NoColonIn(w, "x");
      assert w + "" + "x" == w + "x";
      NoColon(s, start, w + "x");
    } else if n > 0 {
      var sep := TurnOn(s, start, w, hs);
      ParseGoesOn(s, start, n);
      var next := LineAt(s, start, sep).next;
      if hs[0].val == "" && |hs| == 1 {
        IndexOfIs(s, ':', next, |s|, |s|);
        ParseStops(s, next, n - 1);
      } else {
        var m := if hs[0].val == "" then 2 else 1;
        LinesAtMost(s, next, "\r\n", hs[m..], n - 1);
      }
    }
  }

  // Where the parser is behind the first of these headers: behind one line, or two, or all.
  lemma TurnOn(s: string, start: nat, w: string, hs: seq<Header>) returns (sep: nat)
    requires start <= |s| && s[start..] == w + HeaderText(hs) + "x" && AllSpace(w)
    requires hs != [] && forall i :: 0 <= i < |hs| ==> Readable(hs[i])
    ensures start <= sep < |s| && sep == IndexOf(s, ':', start, |s|)
    ensures var line := LineAt(s, start, sep);
            if hs[0].val != "" then s[line.next..] == "\r\n" + HeaderText(hs[1..]) + "x"
            else if |hs| == 1 then line.next == |s| && line.len == 1
            else s[line.next..] == "\r\n" + HeaderText(hs[2..]) + "x"
  {
    hide LineAt, LineText, CleanKey, CleanValue, IndexOf;
    sep := IndexOf(s, ':', start, |s|);
    var rest := HeaderText(hs[1..]) + "x";
    assert w + HeaderText(hs) + "x" == w + LineText(hs[0]) + rest;
    if hs[0].val != "" {
      ParsePrintedLine(s, start, w, hs[0], rest);
      assert "\r\n" + rest == "\r\n" + HeaderText(hs[1..]) + "x";
    } else if |hs| == 1 {
      assert rest == "x";
      EmptyTakesTail(s, start, w, hs[0]);
    } else {
      var rest' := HeaderText(hs[2..]) + "x";
      assert hs[1..][1..] == hs[2..];
      assert rest == LineText(hs[1]) + rest';
      EmptyTakesLine(s, start, w, hs[0], hs[1], rest');
      assert "\r\n" + rest' == "\r\n" + HeaderText(hs[2..]) + "x";
    }
  }

  // The headers are read back, all of them and no more.
  ghost predicate ReadsBack(s: string, start: nat, n: nat, hs: seq<Header>)
    requires start <= |s|
  {
    var lines := Parse(s, start, n);
    |lines| == |hs| && forall i :: 0 <= i < |lines| ==> GivesBack(s, lines[i], hs[i])
  }

  lemma {:induction false} NoneEmpty(s: string, start: nat, w: string, hs: seq<Header>, n: nat)
    requires start <= |s| && s[start..] == w + HeaderText(hs) + "x" && AllSpace(w)
    requires (forall i :: 0 <= i < |hs| ==> Readable(hs[i])) && ReadsBack(s, start, n, hs)
    ensures forall i :: 0 <= i < |hs| ==> hs[i].val != ""
    decreases |hs|
  {
    hide LineAt, LineText, CleanKey, CleanValue, IndexOf, Parse, HeaderText;
    if hs != [] {
      var sep := TurnOn(s, start, w, hs);
      ParseStops(s, start, n);
      ParseGoesOn(s, start, n);
      var next := LineAt(s, start, sep).next;
      if hs[0].val != "" {
        NoneEmpty(s, next, "\r\n", hs[1..], n - 1);
      } else if |hs| > 1 {
        LinesAtMost(s, next, "\r\n", hs[2..], n - 1);
      }
    }
  }

  // So the condition is exact: with room for them, these are the lists that come back in front of everything that
  // holds no colon.
  lemma CarriedIff(hs: seq<Header>, n: nat)
    requires |hs| <= n
    ensures (forall tail: string :: ':' !in tail ==> ReadsBack(HeaderText(hs) + tail, 0, n, hs))
       <==> forall i :: 0 <= i < |hs| ==> Printable(hs[i])
  {
    hide ReadsBack, HeaderText, Printable, Readable;
    if forall tail: string :: ':' !in tail ==> ReadsBack(HeaderText(hs) + tail, 0, n, hs) {
      AllPrintable(hs, n);
    }
    if forall i :: 0 <= i < |hs| ==> Printable(hs[i]) {
      forall tail: string | ':' !in tail ensures ReadsBack(HeaderText(hs) + tail, 0, n, hs) {
        AllReadBack(hs, tail, n);
      }
    }
  }

  lemma AllPrintable(hs: seq<Header>, n: nat)
    requires ReadsBack(HeaderText(hs) + "x", 0, n, hs)
    ensures forall i :: 0 <= i < |hs| ==> Printable(hs[i])
  {
    hide HeaderText, Parse, GivesBack, CleanKey, CleanValue;
    var s := HeaderText(hs) + "x";
    forall i | 0 <= i < |hs| ensures Readable(hs[i]) {
      ReadHeaders(s, 0, n, i, hs[i]);
    }
    assert s[0..] == "" + HeaderText(hs) + "x";
    NoneEmpty(s, 0, "", hs, n);
  }

  lemma AllReadBack(hs: seq<Header>, tail: string, n: nat)
    requires |hs| <= n && (forall i :: 0 <= i < |hs| ==> Printable(hs[i])) && ':' !in tail
    ensures ReadsBack(HeaderText(hs) + tail, 0, n, hs)
  {
    hide HeaderText, Parse, GivesBack, Printable;
    HeaderRoundTrip(hs, tail, n);
  }

  function Lower(c: char): char { if 'A' <= c <= 'Z' then (c as int + 32) as char else c }

  // strncasecmp on two texts of one length: case does not count, and nothing after a common NUL.
  predicate SameText(a: string, b: string)
    requires |a| == |b|
  {
    a == "" || (Lower(a[0]) == Lower(b[0]) && (a[0] == '\0' || SameText(a[1..], b[1..])))
  }

  predicate SameKey(a: string, b: string) { |a| == |b| && SameText(a, b) }

  // Equal, or one letter in its two cases.
  predicate SameButCase(a: char, b: char) {
    a == b || ('A' <= a <= 'Z' && b as int == a as int + 32) || ('A' <= b <= 'Z' && a as int == b as int + 32)
  }

  // Keys are the same if they are so character by character.
  lemma SameKeyIff(a: string, b: string)
    requires '\0' !in a
    ensures SameKey(a, b) <==> |a| == |b| && forall i :: 0 <= i < |a| ==> SameButCase(a[i], b[i])
  {
    if |a| == |b| {
      SameTextIff(a, b);
    }
  }

  lemma {:induction false} SameTextIff(a: string, b: string)
    requires |a| == |b| && '\0' !in a
    ensures SameText(a, b) <==> forall i :: 0 <= i < |a| ==> SameButCase(a[i], b[i])
  {
    hide SameButCase, Lower;
    if a != "" {
      LowerIff(a[0], b[0]);
      SameTextIff(a[1..], b[1..]);
      assert forall i :: 0 <= i < |a| ==> a[i] == (if i == 0 then a[0] else a[1..][i - 1]) && b[i] == (if i == 0 then b[0] else b[1..][i - 1]);
    }
  }

  lemma LowerIff(a: char, b: char)
    ensures Lower(a) == Lower(b) <==> SameButCase(a, b)
  {}

  // The first line with the key.
  method NeedKv(lines: seq<Line>, key: string) returns (i: nat)
    ensures i <= |lines| && (i < |lines| ==> SameKey(lines[i].key, key))
    ensures forall j :: 0 <= j < i ==> !SameKey(lines[j].key, key)
  {
    i := 0;
    while i < |lines|
      invariant i <= |lines| && forall j :: 0 <= j < i ==> !SameKey(lines[j].key, key)
    {
      if SameKey(lines[i].key, key) {
        return;
      }
      i := i + 1;
    }
  }
}
