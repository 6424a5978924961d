/** `get_word` and `get_quote`, which cut a buffer into C strings in place. */
module Tokenizer {
  import opened CText
  import opened Wire

  /** A C string starts at `p`: `w`, then a NUL. */
  predicate StringAt(s: string, p: nat, w: string) {
    p + |w| < |s| && s[p..p + |w|] == w && s[p + |w|] == '\0'
  }

  /** The bytes from `p` on begin with `w`. */
  predicate TextAt(s: string, p: nat, w: string) {
    p + |w| <= |s| && s[p..p + |w|] == w
  }

  ghost predicate Terminated(s: string, p: nat) {
    exists i :: p <= i < |s| && IsDelim(s[i])
  }

  /** The first delimiter from `p` on. */
  function WordEnd(s: string, p: nat): (e: nat)
    requires Terminated(s, p)
    ensures p <= e < |s| && IsDelim(s[e]) && NoDelim(s[p..e])
    decreases |s| - p
  {
    if IsDelim(s[p]) then p else WordEnd(s, p + 1)
  }

  lemma {:induction false} WordEndIs(s: string, p: nat, w: string)
    requires Terminated(s, p) && p + |w| < |s| && s[p..p + |w|] == w && NoDelim(w) && IsDelim(s[p + |w|])
    ensures WordEnd(s, p) == p + |w|
    decreases |w|
  {
    if w != [] {
      assert s[p] == w[0];
      assert s[p + 1..p + 1 + |w[1..]|] == w[1..];
      WordEndIs(s, p + 1, w[1..]);
    }
  }

  /**
   * `get_word`: `str` is the caller's pointer, None when it is null. A blank at the pointer is
   * returned as it is and nothing moves. An empty word makes the code look at the byte before
   * the pointer, so there has to be one.
   */
  method GetWord(buf: array<char>, str: Option<nat>) returns (ret: Option<nat>, next: Option<nat>)
    requires str.Some? ==> Terminated(buf[..], str.value)
    requires str.Some? && str.value == 0 ==> buf[0] != '\0' && buf[0] != '\n'
    modifies buf
    ensures str.None? ==> ret == None && next == None && buf[..] == old(buf[..])
    ensures str.Some? && old(buf[str.value]) == ' ' ==> ret == next == str && buf[..] == old(buf[..])
    ensures str.Some? && old(buf[str.value]) != ' ' ==>
      (var s := old(buf[..]); var e := WordEnd(s, str.value);
       && ret == str
       && next == (if s[e] == '\0' then None else Some(e + 1))
       && buf[..] == s[(if s[e - 1] == '\n' then e - 1 else e) := '\0'])
  {
    if str.None? {
      return None, None;
    }
    var p, size, end := str.value, 0, false;
    if buf[p + size] == ' ' {
      return str, str;
    }
    while buf[p + size] != ' ' && buf[p + size] != '\0' && buf[p + size] != '\n'
      invariant p + size <= WordEnd(buf[..], p) && NoDelim(buf[p..p + size])
      decreases buf.Length - size
    {
      assert buf[p..p + size + 1] == buf[p..p + size] + [buf[p + size]];
      size := size + 1;
    }
    WordEndIs(buf[..], p, buf[p..p + size]);
    if buf[p + size] == '\0' {
      end := true;
    }
    buf[p + size - (if buf[p + size - 1] == '\n' then 1 else 0)] := '\0';
    ret := str;
    next := if end then None else Some(p + size + 1);
  }

  // ---- a line of words ----

  /** The words joined by blanks, with a newline at the end. */
  function Line(ws: seq<string>): string {
    if ws == [] then "" else ws[0] + ((if |ws| == 1 then "\n" else " ") + Line(ws[1..]))
  }

  /** The last word may be empty, unless it is the first. */
  ghost predicate Words(ws: seq<string>) {
    forall i :: 0 <= i < |ws| ==> NoDelim(ws[i]) && (ws[i] == [] ==> 0 < i == |ws| - 1)
  }

  /**
   * A line being cut: the words handed out so far start at `starts` and are C strings before the
   * pointer, and the rest of the line is at the pointer. Nothing is said about what follows it.
   */
  ghost predicate Cut(s: string, str: Option<nat>, ws: seq<string>, starts: seq<nat>) {
    && |starts| <= |ws| && str.Some? && TextAt(s, str.value, Line(ws[|starts|..]))
    && (starts != [] ==> 0 < str.value <= |s| && s[str.value - 1] == '\0')
    && forall j :: 0 <= j < |starts| ==>
         StringAt(s, starts[j], ws[j]) && starts[j] + |ws[j]| < str.value
  }

  lemma LineParts(ws: seq<string>)
    requires ws != []
    ensures var w, line := ws[0], Line(ws);
      |w| < |line| && line[..|w|] == w && line[|w|] == (if |ws| == 1 then '\n' else ' ')
      && line[|w| + 1..] == Line(ws[1..])
  {
    JoinedParts(ws[0], if |ws| == 1 then "\n" else " ", Line(ws[1..]));
  }

  lemma JoinedParts(w: string, d: string, tail: string)
    requires |d| == 1
    ensures var line := w + (d + tail);
      |w| < |line| && line[..|w|] == w && line[|w|] == d[0] && line[|w| + 1..] == tail
  {
  }

  lemma FirstOfLine(s: string, p: nat, ws: seq<string>)
    requires ws != [] && NoDelim(ws[0]) && (ws[0] == [] ==> |ws| == 1) && TextAt(s, p, Line(ws))
    ensures Terminated(s, p) && WordEnd(s, p) == p + |ws[0]| && s[p] != ' ' && s[p + |ws[0]|] != '\0'
    ensures ws[0] != [] ==> !IsDelim(s[p]) && s[p + |ws[0]| - 1] != '\n'
    ensures StringAt(s[p + |ws[0]| := '\0'], p, ws[0])
    ensures TextAt(s[p + |ws[0]| := '\0'], p + |ws[0]| + 1, Line(ws[1..]))
  {
    var w, line := ws[0], Line(ws);
    LineParts(ws);
    assert s[p..p + |w|] == line[..|w|];
    assert s[p + |w|] == line[|w|];
    WordEndIs(s, p, w);
    if w != [] {
      assert s[p] == w[0] && s[p + |w| - 1] == w[|w| - 1];
    }
    RestOfLine(s, p, line, |w|);
  }

  lemma RestOfLine(s: string, p: nat, line: string, n: nat)
    requires TextAt(s, p, line) && n < |line|
    ensures TextAt(s[p + n := '\0'], p + n + 1, line[n + 1..]) && s[p + n := '\0'][p..p + n] == line[..n]
  {
    assert s[p + n + 1..p + |line|] == line[n + 1..];
  }

  lemma EarlierStays(s: string, q: nat, w: string, p: nat)
    requires StringAt(s, q, w) && q + |w| < p < |s|
    ensures StringAt(s[p := '\0'], q, w)
  {
  }

  /** Cutting the next word off a line keeps the words cut before it. */
  lemma CutStep(s: string, p: nat, ws: seq<string>, starts: seq<nat>)
    requires Words(ws) && |starts| < |ws| && Cut(s, Some(p), ws, starts)
    ensures Terminated(s, p) && s[p] != ' ' && (p == 0 ==> s[p] != '\0' && s[p] != '\n')
    ensures var e := WordEnd(s, p);
      && 0 < e && s[e] != '\0' && s[e - 1] != '\n'
      && Cut(s[e := '\0'], Some(e + 1), ws, starts + [p])
  {
    var k := |starts|;
    var e := p + |ws[k]|;
    assert ws[k..][1..] == ws[k + 1..] && ws[k..][0] == ws[k];
    FirstOfLine(s, p, ws[k..]);
    EarlierStay(s, p, ws, starts, e);
    assert s[e := '\0'][e] == '\0';
    assert s[e := '\0'][..e] == s[..e];
  }

  lemma EarlierStay(s: string, p: nat, ws: seq<string>, starts: seq<nat>, e: nat)
    requires |starts| <= |ws| && p <= e < |s|
    requires forall j :: 0 <= j < |starts| ==> StringAt(s, starts[j], ws[j]) && starts[j] + |ws[j]| < p
    ensures forall j :: 0 <= j < |starts| ==>
              StringAt(s[e := '\0'], starts[j], ws[j]) && starts[j] + |ws[j]| < e + 1
  {
    forall j | 0 <= j < |starts| ensures StringAt(s[e := '\0'], starts[j], ws[j]) {
      EarlierStays(s, starts[j], ws[j], e);
    }
  }

  /** One call of `get_word` on a line: it returns the next word and disturbs no earlier one. */
  method NextWord(buf: array<char>, str: Option<nat>, ghost ws: seq<string>, ghost starts: seq<nat>)
      returns (word: nat, next: Option<nat>)
    requires Words(ws) && |starts| < |ws| && Cut(buf[..], str, ws, starts)
    modifies buf
    ensures Cut(buf[..], next, ws, starts + [word])
  {
    CutStep(buf[..], str.value, ws, starts);
    var ret;
    ret, next := GetWord(buf, str);
    word := ret.value;
  }

  /** The C string at `p`, as the caller's `strcmp`, `atoi` and `printf` see it. */
  method ReadString(buf: array<char>, p: nat, ghost w: string) returns (r: string)
    requires StringAt(buf[..], p, w) && NulFree(w)
    ensures r == w
  {
    r := CString(buf[p..]);
    CStringPrefix(w, buf[..][p + |w| + 1..]);
    assert buf[p..] == w + ['\0'] + buf[..][p + |w| + 1..];
  }

  // ---- quotes ----

  /** Some byte from `p` on ends a quote, and one more is left in the buffer. */
  ghost predicate QuoteEnds(s: string, p: nat) {
    exists i :: p <= i < |s| - 1 && (s[i] == '"' || s[i] == '\0')
  }

  /** The first such byte. */
  function QuoteEnd(s: string, p: nat): (e: nat)
    requires QuoteEnds(s, p)
    ensures p <= e < |s| - 1 && (s[e] == '"' || s[e] == '\0')
    ensures forall i :: p <= i < e ==> s[i] != '"' && s[i] != '\0'
    decreases |s| - p
  {
    if s[p] == '"' || s[p] == '\0' then p else QuoteEnd(s, p + 1)
  }

  /**
   * `get_quote`: a NUL goes after the byte that ends the quote, closing mark or not, and the
   * pointer behind it, or to null if there was a NUL already.
   */
  method GetQuote(buf: array<char>, str: Option<nat>) returns (ret: Option<nat>, next: Option<nat>)
    requires str.Some? ==> QuoteEnds(buf[..], str.value + 1)
    modifies buf
    ensures ret == str
    ensures str.None? ==> next == None && buf[..] == old(buf[..])
    ensures str.Some? ==>
      (var s := old(buf[..]); var e := QuoteEnd(s, str.value + 1);
       && buf[..] == s[e + 1 := '\0'] && next == if s[e + 1] == '\0' then None else Some(e + 2))
  {
    if str.None? {
      return None, None;
    }
    var p, size, end := str.value, 1, false;
    while buf[p + size] != '"' && buf[p + size] != '\0'
      invariant 1 <= size && p + size <= QuoteEnd(buf[..], p + 1)
      decreases buf.Length - size
    {
      size := size + 1;
    }
    assert p + size == QuoteEnd(buf[..], p + 1);
    if buf[p + size + 1] == '\0' {
      end := true;
    }
    buf[p + size + 1] := '\0';
    ret := str;
    next := if end then None else Some(p + size + 2);
  }

  /** A closed quote with both its marks becomes a C string. */
  lemma ClosedQuote(s: string, p: nat, text: string)
    requires p + |text| + 2 < |s| && NulFree(text) && '"' !in text
    requires s[p..p + |text| + 2] == ['"'] + text + ['"']
    ensures QuoteEnds(s, p + 1) && QuoteEnd(s, p + 1) == p + |text| + 1
    ensures StringAt(s[p + |text| + 2 := '\0'], p, ['"'] + text + ['"'])
  {
    var e := p + |text| + 1;
    assert s[e] == (['"'] + text + ['"'])[|text| + 1];
    forall i | 0 <= i < |text| ensures s[p + 1 + i] == text[i] {
      assert s[p + 1 + i] == (['"'] + text + ['"'])[i + 1];
    }
    forall i | p + 1 <= i < e ensures s[i] != '"' && s[i] != '\0' {
      assert s[i] == text[i - p - 1];
    }
    assert s[e + 1 := '\0'][p..e + 1] == s[p..e + 1];
  }
}
