/** The parts of Go's `strings` package that the modelled code relies on. */
module Text {

  /** unicode.IsSpace. */
  predicate IsSpace(c: char) {
    var n := c as int;
    || 0x09 <= n <= 0x0D || n == 0x20 || n == 0x85 || n == 0xA0 || n == 0x1680
    || 0x2000 <= n <= 0x200A || n == 0x2028 || n == 0x2029 || n == 0x202F || n == 0x205F || n == 0x3000
  }

  function TrimLeft(s: string): string {
    if s != "" && IsSpace(s[0]) then TrimLeft(s[1..]) else s
  }

  function TrimRight(s: string): string {
    if s != "" && IsSpace(s[|s| - 1]) then TrimRight(s[..|s| - 1]) else s
  }

  /** strings.TrimSpace. */
  function TrimSpace(s: string): string {
    TrimRight(TrimLeft(s))
  }

  /** Upper case, exact for every character whose upper case is an ASCII letter. */
  function UpperChar(c: char): char {
    if 'a' <= c <= 'z' then c - 32 as char
    else if c == '\U{131}' then 'I'
    else if c == '\U{17F}' then 'S'
    else c
  }

  /** Lower case, exact for every character whose lower case is an ASCII letter. */
  function LowerChar(c: char): char {
    if 'A' <= c <= 'Z' then c + 32 as char
    else if c == '\U{130}' then 'i'
    else if c == '\U{212A}' then 'k'
    else c
  }

  function ToUpper(s: string): string {
    seq(|s|, i requires 0 <= i < |s| => UpperChar(s[i]))
  }

  function ToLower(s: string): string {
    seq(|s|, i requires 0 <= i < |s| => LowerChar(s[i]))
  }

  /** The simple case fold of strings.EqualFold, exact when one side is ASCII; it leaves U+0130 alone. */
  function FoldChar(c: char): char {
    if c == '\U{17F}' then 's' else if c == '\U{130}' then c else LowerChar(c)
  }

  predicate EqualFold(a: string, b: string) {
    |a| == |b| && forall i :: 0 <= i < |a| ==> FoldChar(a[i]) == FoldChar(b[i])
  }

  predicate HasPrefix(s: string, prefix: string) {
    prefix <= s
  }

  predicate HasSuffix(s: string, suffix: string) {
    |suffix| <= |s| && s[|s| - |suffix|..] == suffix
  }

  function TrimSuffix(s: string, suffix: string): string {
    if HasSuffix(s, suffix) then s[..|s| - |suffix|] else s
  }

  function Utf8Width(c: char): nat {
    var n := c as int;
    if n < 0x80 then 1 else if n < 0x800 then 2 else if n < 0x10000 then 3 else 4
  }

  /** len(s) in Go: the number of UTF-8 bytes. */
  function ByteLen(s: string): nat {
    if s == "" then 0 else Utf8Width(s[0]) + ByteLen(s[1..])
  }

  // ---------------------------------------------------------------- what these functions mean

  predicate Blank(s: string) {
    forall c :: c in s ==> IsSpace(c)
  }

  predicate Bare(s: string) {
    s != "" ==> !IsSpace(s[0]) && !IsSpace(s[|s| - 1])
  }

  lemma {:induction false} TrimLeftSplits(s: string) returns (pad: string)
    ensures s == pad + TrimLeft(s) && Blank(pad)
    ensures TrimLeft(s) != "" ==> !IsSpace(TrimLeft(s)[0])
  {
    if s != "" && IsSpace(s[0]) {
      var rest := TrimLeftSplits(s[1..]);
      pad := [s[0]] + rest;
    } else {
      pad := "";
    }
  }

  lemma {:induction false} TrimRightSplits(s: string) returns (pad: string)
    ensures s == TrimRight(s) + pad && Blank(pad)
    ensures TrimRight(s) != "" ==> !IsSpace(TrimRight(s)[|TrimRight(s)| - 1])
  {
    if s != "" && IsSpace(s[|s| - 1]) {
      var rest := TrimRightSplits(s[..|s| - 1]);
      pad := rest + [s[|s| - 1]];
    } else {
      pad := "";
    }
  }

  lemma {:induction false} LeftBlanksGo(pad: string, core: string)
    requires Blank(pad) && (core != "" ==> !IsSpace(core[0]))
    ensures TrimLeft(pad + core) == core
  {
    if pad == "" {
      assert pad + core == core;
    } else {
      assert pad[0] in pad && (pad + core)[1..] == pad[1..] + core;
      LeftBlanksGo(pad[1..], core);
    }
  }

  lemma {:induction false} RightBlanksGo(core: string, pad: string)
    requires Blank(pad) && (core != "" ==> !IsSpace(core[|core| - 1]))
    ensures TrimRight(core + pad) == core
  {
    if pad == "" {
      assert core + pad == core;
    } else {
      var init := pad[..|pad| - 1];
      assert pad[|pad| - 1] in pad && (core + pad)[..|core + pad| - 1] == core + init;
      RightBlanksGo(core, init);
    }
  }

  lemma TrimSplits(s: string) returns (before: string, after: string)
    ensures Blank(before) && Blank(after) && Bare(TrimSpace(s)) && s == before + TrimSpace(s) + after
  {
    before := TrimLeftSplits(s);
    after := TrimRightSplits(TrimLeft(s));
    hide TrimLeft, TrimRight, Blank;
    var core := TrimSpace(s);
    assert TrimLeft(s) == core + after;
    if core != "" {
      assert core[0] == TrimLeft(s)[0];
    }
  }

  lemma PaddedIsTrimmed(before: string, core: string, after: string)
    requires Blank(before) && Blank(after) && Bare(core)
    ensures TrimSpace(before + core + after) == core
  {
    assert before + core + after == before + (core + after);
    if core == "" {
      BlankIsTrimmed(before + after);
      assert before + core + after == before + after;
    } else {
      assert (core + after)[0] == core[0];
      LeftBlanksGo(before, core + after);
      RightBlanksGo(core, after);
    }
  }

  /** Trimming finds the one text without outer blanks that the string is, up to blanks around it. */
  lemma TrimMeaning(s: string, core: string)
    ensures TrimSpace(s) == core <==>
      Bare(core) && exists before, after :: Blank(before) && Blank(after) && s == before + core + after
  {
    hide TrimSpace, Bare, Blank;
    var b, a := TrimSplits(s);
    if before, after :| Bare(core) && Blank(before) && Blank(after) && s == before + core + after {
      PaddedIsTrimmed(before, core, after);
    }
  }

  lemma BlankIsTrimmed(s: string)
    requires Blank(s)
    ensures TrimSpace(s) == ""
  {
    LeftBlanksGo(s, "");
    assert s + "" == s;
  }

  predicate Ascii(s: string) {
    forall i :: 0 <= i < |s| ==> s[i] < '\U{80}'
  }

  /** Among ASCII characters only letters have a case, and either case leads back to the other. */
  lemma CaseRoundTrip(s: string)
    requires Ascii(s)
    ensures ToLower(ToUpper(s)) == ToLower(s) && ToUpper(ToLower(s)) == ToUpper(s)
    ensures forall i :: 0 <= i < |s| ==>
      && !('A' <= ToLower(s)[i] <= 'Z') && !('a' <= ToUpper(s)[i] <= 'z')
      && (('a' <= s[i] <= 'z' || 'A' <= s[i] <= 'Z') ==> ToLower(s)[i] as int == ToUpper(s)[i] as int + 32)
      && (!('a' <= s[i] <= 'z' || 'A' <= s[i] <= 'Z') ==> ToLower(s)[i] == s[i] == ToUpper(s)[i])
  {
  }

  /** Between ASCII strings, equality under case folding is equality in lower case. */
  lemma FoldingIgnoresCase(a: string, b: string)
    requires Ascii(a) && Ascii(b)
    ensures EqualFold(a, b) <==> ToLower(a) == ToLower(b)
  {
    assert forall i :: 0 <= i < |a| ==> FoldChar(a[i]) == ToLower(a)[i];
    assert forall i :: 0 <= i < |b| ==> FoldChar(b[i]) == ToLower(b)[i];
    if ToLower(a) == ToLower(b) {
      assert |a| == |ToLower(a)| == |b|;
    }
  }

  lemma {:induction false} ByteLenMeaning(a: string, b: string)
    ensures ByteLen(a + b) == ByteLen(a) + ByteLen(b)
    ensures |a| <= ByteLen(a) <= 4 * |a|
    ensures Ascii(a) <==> ByteLen(a) == |a|
  {
    if a == "" {
      assert a + b == b;
    } else {
      assert a == [a[0]] + a[1..];
      assert (a + b)[1..] == a[1..] + b;
      ByteLenMeaning(a[1..], b);
    }
  }
}
