/** The LLM translator (`GeminiTranslator`, src/translator.py): the
    enabled switch, the short-input guard, the code-preserving path with
    its placeholders, the title clean-up, the whole-article rewrite and the
    summary fallback. The model calls themselves are opaque: each becomes
    a function value that may fail (`None` = the call raised). */
module Translator {
  import opened Strings
  import opened Articles

  /** What the translator obtains from the language model. `text` is the
      answer to the rewriting prompt after `strip` and the translated-text
      clean-up; `title` is the raw answer to the title prompt; `summary`
      is the stripped answer to the summary prompt, given the (cut) content
      and the length limit; `dehyphen` is the dash-removing rewrite applied
      to titles. */
  datatype Llm = Llm(
    text: (string, string, string) -> Option<string>,
    title: (string, string, string) -> Option<string>,
    summary: (string, int) -> Option<string>,
    dehyphen: string -> string)

  /** A text node of a parsed HTML document, with the name of its parent tag. */
  datatype TextNode = TextNode(parent: string, text: string)

  /** What the translator obtains from the HTML parser: whether the content
      holds any tag, its text nodes in document order, and the document
      printed back with its text nodes replaced. */
  datatype Soup = Soup(
    hasTags: string -> bool,
    textNodes: string -> seq<TextNode>,
    render: (string, seq<TextNode>) -> string)

  datatype Translator = Translator(enabled: bool, llm: Llm, soup: Soup)

  /** The constructor: the explicit key wins over the environment's; with
      no key, or when no model can be loaded, the translator is disabled. */
  function MakeTranslator(apiKey: Option<string>, envKey: Option<string>, modelLoads: bool,
                          llm: Llm, soup: Soup): (t: Translator)
    ensures !Truthy(apiKey) && !Truthy(envKey) ==> !t.enabled
    ensures t.enabled <==> (Truthy(apiKey) || Truthy(envKey)) && modelLoads
    ensures t.llm == llm && t.soup == soup
  {
    var key := if Truthy(apiKey) then apiKey else envKey;
    Translator(Truthy(key) && modelLoads, llm, soup)
  }

  // ---------------------------------------------------------------------
  // Plain text

  /** The short-input guard of `_translate_text`. */
  predicate TooShort(text: string) {
    text == [] || |Strip(text)| < 10
  }

  /** `_translate_text`: short input and a failing call both give the input back. */
  function TranslateText(t: Translator, text: string, src: string, tgt: string): (r: string)
    ensures TooShort(text) ==> r == text
    ensures t.llm.text(text, src, tgt).None? ==> r == text
    ensures r != text ==> t.llm.text(text, src, tgt) == Some(r)
  {
    if TooShort(text) then text
    else match t.llm.text(text, src, tgt)
      case None => text
      case Some(answer) => answer
  }

  // ---------------------------------------------------------------------
  // Code spans and placeholders

  const Marker := "__CODE_BLOCK_"

  /** Printed decimal digits: at least one, all in '0'..'9'. */
  predicate IsDigits(d: string) {
    |d| >= 1 && forall i :: 0 <= i < |d| ==> '0' <= d[i] <= '9'
  }

  /** The placeholder text around a string of digits. */
  function Tag(d: string): (p: string)
    ensures |p| == 15 + |d|
    ensures forall k :: 0 <= k < 13 ==> p[k] == Marker[k]
    ensures forall k :: 0 <= k < |d| ==> p[13 + k] == d[k]
    ensures p[13 + |d|] == '_' && p[14 + |d|] == '_'
  {
    Marker + d + "__"
  }

  /** The placeholder that stands for the `i`-th code span. */
  function Placeholder(i: nat): (p: string)
    ensures |p| >= 16
  {
    Tag(NatToString(i))
  }

  /** Two different placeholders never start at the same place: the digits
      are closed by '_', which is not a digit. */
  lemma PlaceholderDistinct(j: nat, n: nat, rest: string)
    requires j != n
    ensures !IsPrefix(Placeholder(j), Placeholder(n) + rest)
  {
    if NatToString(j) == NatToString(n) {
      NatToStringInjective(j, n);
    }
    TagsDistinct(NatToString(j), NatToString(n), rest);
  }

  lemma TagsDistinct(dj: string, dn: string, rest: string)
    requires IsDigits(dj) && IsDigits(dn) && dj != dn
    ensures !IsPrefix(Tag(dj), Tag(dn) + rest)
  {
    if |dj| < |dn| {
      ShorterDigitsDiffer(dj, dn, rest);
    } else if |dj| > |dn| {
      LongerDigitsDiffer(dj, dn, rest);
    } else {
      SameLengthDigitsDiffer(dj, dn, rest);
    }
  }

  lemma ShorterDigitsDiffer(dj: string, dn: string, rest: string)
    requires IsDigits(dn) && |dj| < |dn|
    ensures !IsPrefix(Tag(dj), Tag(dn) + rest)
  {
    var i := 13 + |dj|;
    assert (Tag(dn) + rest)[i] == dn[i - 13];
    NotPrefixAt(Tag(dj), Tag(dn) + rest, i);
  }

  lemma LongerDigitsDiffer(dj: string, dn: string, rest: string)
    requires IsDigits(dj) && |dj| > |dn|
    ensures !IsPrefix(Tag(dj), Tag(dn) + rest)
  {
    var i := 13 + |dn|;
    assert Tag(dj)[i] == dj[i - 13];
    NotPrefixAt(Tag(dj), Tag(dn) + rest, i);
  }

  /** Two different strings of the same length differ at some index. */
  lemma FirstDifference(a: string, b: string) returns (k: nat)
    requires |a| == |b| && a != b
    ensures k < |a| && a[k] != b[k]
  {
    k :| 0 <= k < |a| && a[k] != b[k];
  }

  lemma SameLengthDigitsDiffer(dj: string, dn: string, rest: string)
    requires |dj| == |dn| && dj != dn
    ensures !IsPrefix(Tag(dj), Tag(dn) + rest)
  {
    var k := FirstDifference(dj, dn);
    assert (Tag(dn) + rest)[13 + k] == dn[k];
    NotPrefixAt(Tag(dj), Tag(dn) + rest, 13 + k);
  }

  /** A placeholder cannot start 1 to 12 characters before another one:
      some character of the marker clashes. */
  lemma PlaceholderAfterShort(w: string, n: nat, rest: string, j: nat)
    requires 1 <= |w| <= 12
    ensures !IsPrefix(Placeholder(j), w + Placeholder(n) + rest)
  {
    TagAfterShort(w, NatToString(n), rest, NatToString(j));
  }

  lemma TagAfterShort(w: string, dn: string, rest: string, dj: string)
    requires 1 <= |w| <= 12 && IsDigits(dj) && IsDigits(dn)
    ensures !IsPrefix(Tag(dj), w + Tag(dn) + rest)
  {
    var t := w + Tag(dn) + rest;
    var d := |w|;
    var i := if d == 6 then 7 else if d == 11 then 11 else if d == 12 then 13 else 12;
    assert t[i] == Tag(dn)[i - d];
    NotPrefixAt(Tag(dj), t, i);
  }

  /** A fence "```" starts at index `j` of `t`. */
  predicate FenceAt(t: string, j: int) {
    0 <= j && j + 3 <= |t| && t[j..j + 3] == "```"
  }

  /** Index of the nearest closing fence at or after `k`: the lazy
      `[\s\S]*?` of the fenced alternative. */
  function FenceClose(t: string, k: nat): (r: Option<nat>)
    ensures r.Some? ==> k <= r.value && FenceAt(t, r.value)
    ensures r.Some? ==> forall j :: k <= j < r.value ==> !FenceAt(t, j)
    ensures r.None? ==> forall j :: k <= j ==> !FenceAt(t, j)
    decreases |t| - k
  {
    if k + 3 > |t| then None
    else if FenceAt(t, k) then Some(k)
    else FenceClose(t, k + 1)
  }

  /** End of the run of characters other than '`' and line feed from `k`. */
  function InlineStop(t: string, k: nat): (e: nat)
    requires k <= |t|
    ensures k <= e <= |t|
    ensures forall j :: k <= j < e ==> t[j] != '`' && t[j] != '\n'
    ensures e < |t| ==> t[e] == '`' || t[e] == '\n'
    decreases |t| - k
  {
    if k == |t| || t[k] == '`' || t[k] == '\n' then k else InlineStop(t, k + 1)
  }

  /** Length of the match of the code pattern at the start of `t`: first a
      fenced block up to the nearest closing fence, else a one-line inline
      span of at least one character between single backticks. */
  function MatchLen(t: string): (m: Option<nat>)
    ensures m.Some? ==> 3 <= m.value <= |t| && t[0] == '`' && t[m.value - 1] == '`'
    ensures t == [] || t[0] != '`' ==> m.None?
  {
    if FenceAt(t, 0) && FenceClose(t, 3).Some? then
      var k := FenceClose(t, 3).value;
      assert t[0] == t[0..3][0] && t[k + 2] == t[k..k + 3][2];
      Some(k + 3)
    else if |t| >= 1 && t[0] == '`' then
      var e := InlineStop(t, 1);
      if 1 < e < |t| && t[e] == '`' then Some(e + 1) else None
    else None
  }

  /** `re.sub` with the collecting callback: scanning left to right, each
      code span is replaced by the next placeholder, numbered from `n`, and
      appended to the list of blocks. */
  function Mask(s: string, n: nat): (r: (string, seq<string>))
    ensures forall b :: b in r.1 ==> |b| >= 3 && b[0] == '`'
    decreases |s|
  {
    if s == [] then ([], [])
    else match MatchLen(s)
      case Some(m) =>
        var rest := Mask(s[m..], n + 1);
        (Placeholder(n) + rest.0, [s[..m]] + rest.1)
      case None =>
        var rest := Mask(s[1..], n);
        ([s[0]] + rest.0, rest.1)
  }

  /** A text without backticks has no code span: masking leaves it alone. */
  lemma {:induction false} MaskWithoutBackticks(s: string, n: nat)
    requires '`' !in s
    ensures Mask(s, n) == (s, [])
    decreases |s|
  {
    if s != [] {
      assert s[1..] == s[1..] && '`' !in s[1..];
      MaskWithoutBackticks(s[1..], n);
      assert [s[0]] + s[1..] == s;
    }
  }

  // As written: each placeholder in turn is replaced everywhere.

  /** The restore loop of `_translate_with_code_preservation`: for i = 0,
      1, ... every occurrence of the i-th placeholder is replaced by the
      i-th block. */
  function RestoreInOrder(t: string, blocks: seq<string>): string
    decreases |blocks|
  {
    if blocks == [] then t
    else
      var i := |blocks| - 1;
      ReplaceAll(RestoreInOrder(t, blocks[..i]), Placeholder(i), blocks[i])
  }

  method RestoreSequentially(translated: string, blocks: seq<string>) returns (r: string)
    ensures r == RestoreInOrder(translated, blocks)
  {
    r := translated;
    for i := 0 to |blocks|
      invariant r == RestoreInOrder(translated, blocks[..i])
    {
      assert blocks[..i + 1][..i] == blocks[..i];
      r := ReplaceAll(r, Placeholder(i), blocks[i]);
    }
    assert blocks[..|blocks|] == blocks;
  }

  /** `_translate_with_code_preservation` as written. */
  function CodePreservedAsWritten(t: Translator, content: string, src: string, tgt: string): string {
    var masked := Mask(content, 0);
    RestoreInOrder(TranslateText(t, masked.0, src, tgt), masked.1)
  }

  method TranslateWithCodePreservationAsWritten(t: Translator, content: string, src: string, tgt: string)
    returns (r: string)
    ensures r == CodePreservedAsWritten(t, content, src, tgt)
  {
    var masked := Mask(content, 0);
    var translated := TranslateText(t, masked.0, src, tgt);
    r := RestoreSequentially(translated, masked.1);
  }

  /** The sequential restore is not a round trip, even for a translation
      that changes nothing and a content free of the marker. Take two
      one-character inline spans followed by the plain text
      "CODE_BLOCK_0__" (for instance "`a``b`CODE_BLOCK_0__"): the trailing
      "__" of placeholder 1 and that text form a second copy of placeholder
      0, so restoring block 0 eats placeholder 1, block 1 is lost and block
      0 appears twice. */
  lemma SequentialRestoreLosesCode(t: Translator, a: char, b: char, src: string, tgt: string)
    requires a != '`' && a != '\n' && b != '`' && b != '\n'
    requires t.llm.text(Placeholder(0) + Placeholder(1) + Placeholder(0)[2..], src, tgt)
      == Some(Placeholder(0) + Placeholder(1) + Placeholder(0)[2..])
    ensures !Contains(Span(a) + Span(b) + Placeholder(0)[2..], Marker)
    ensures CodePreservedAsWritten(t, Span(a) + Span(b) + Placeholder(0)[2..], src, tgt)
      == Span(a) + Placeholder(1)[..14] + Span(a)
    ensures CodePreservedAsWritten(t, Span(a) + Span(b) + Placeholder(0)[2..], src, tgt)
      != Span(a) + Span(b) + Placeholder(0)[2..]
  {
    var content := Span(a) + Span(b) + Placeholder(0)[2..];
    var r := Span(a) + Placeholder(1)[..14] + Span(a);
    NoMarkerInSample(a, b);
    SampleRestoredAsWritten(t, a, b, src, tgt);
    assert r[3] == Placeholder(1)[0] == '_' && content[3] == '`';
  }

  /** What the sequential restore makes of the sample. */
  lemma SampleRestoredAsWritten(t: Translator, a: char, b: char, src: string, tgt: string)
    requires a != '`' && a != '\n' && b != '`' && b != '\n'
    requires t.llm.text(Placeholder(0) + Placeholder(1) + Placeholder(0)[2..], src, tgt)
      == Some(Placeholder(0) + Placeholder(1) + Placeholder(0)[2..])
    ensures CodePreservedAsWritten(t, Span(a) + Span(b) + Placeholder(0)[2..], src, tgt)
      == Span(a) + Placeholder(1)[..14] + Span(a)
  {
    MaskSampleFromZero(a, b);
    SampleIsTranslated(t, src, tgt);
    RestoreSample(a, b);
    AsWrittenWithMask(t, Span(a) + Span(b) + Placeholder(0)[2..],
      Placeholder(0) + Placeholder(1) + Placeholder(0)[2..], [Span(a), Span(b)], src, tgt);
  }

  lemma SampleIsTranslated(t: Translator, src: string, tgt: string)
    requires t.llm.text(Placeholder(0) + Placeholder(1) + Placeholder(0)[2..], src, tgt)
      == Some(Placeholder(0) + Placeholder(1) + Placeholder(0)[2..])
    ensures var masked := Placeholder(0) + Placeholder(1) + Placeholder(0)[2..];
      TranslateText(t, masked, src, tgt) == masked
  {
    var masked := Placeholder(0) + Placeholder(1) + Placeholder(0)[2..];
    assert masked[0] == '_' && masked[|masked| - 1] == '_';
    StripOfStripped(masked);
  }

  lemma AsWrittenWithMask(t: Translator, content: string, masked: string, blocks: seq<string>,
                          src: string, tgt: string)
    requires Mask(content, 0) == (masked, blocks)
    ensures CodePreservedAsWritten(t, content, src, tgt)
      == RestoreInOrder(TranslateText(t, masked, src, tgt), blocks)
  {
  }

  /** An inline code span around one character. */
  function Span(c: char): (r: string)
    ensures |r| == 3 && r[0] == '`' && r[1] == c && r[2] == '`'
  {
    ['`', c, '`']
  }

  lemma PlaceholderDigits()
    ensures NatToString(0) == "0" && NatToString(1) == "1"
  {
  }

  /** The tail "CODE_BLOCK_0__" of placeholder 0 has no backtick. */
  lemma TailWithoutBacktick()
    ensures '`' !in Placeholder(0)[2..]
  {
    PlaceholderDigits();
    var p := Placeholder(0);
    forall k | 2 <= k < |p|
      ensures p[k] != '`'
    {
      if k < 13 {
        assert p[k] == Marker[k];
      }
    }
  }

  /** Masking finds the two inline spans and nothing in a tail without
      backticks. */
  lemma MaskSample(a: char, b: char, tail: string, n: nat, n1: nat)
    requires a != '`' && a != '\n' && b != '`' && b != '\n' && '`' !in tail && n1 == n + 1
    ensures Mask(Span(a) + Span(b) + tail, n)
      == (Placeholder(n) + Placeholder(n1) + tail, [Span(a), Span(b)])
  {
    MaskOneSpan(b, tail, n1);
    var inner := Mask(Span(b) + tail, n1);
    assert Span(a) + Span(b) + tail == Span(a) + (Span(b) + tail);
    MaskSpan(a, Span(b) + tail, n);
    assert Placeholder(n) + inner.0 == Placeholder(n) + Placeholder(n1) + tail;
    assert [Span(a)] + inner.1 == [Span(a), Span(b)];
  }

  lemma MaskOneSpan(b: char, tail: string, n: nat)
    requires b != '`' && b != '\n' && '`' !in tail
    ensures Mask(Span(b) + tail, n) == (Placeholder(n) + tail, [Span(b)])
  {
    MaskWithoutBackticks(tail, n + 1);
    MaskSpan(b, tail, n);
    var last := Mask(tail, n + 1);
    assert last.0 == tail && last.1 == [];
    assert [Span(b)] + last.1 == [Span(b)];
  }

  lemma MaskSampleFromZero(a: char, b: char)
    requires a != '`' && a != '\n' && b != '`' && b != '\n'
    ensures Mask(Span(a) + Span(b) + Placeholder(0)[2..], 0)
      == (Placeholder(0) + Placeholder(1) + Placeholder(0)[2..], [Span(a), Span(b)])
  {
    TailWithoutBacktick();
    MaskSample(a, b, Placeholder(0)[2..], 0, 1);
  }

  /** A one-character inline span is masked by the next placeholder. */
  lemma MaskSpan(c: char, rest: string, n: nat)
    requires c != '`' && c != '\n'
    ensures Mask(Span(c) + rest, n)
      == (Placeholder(n) + Mask(rest, n + 1).0, [Span(c)] + Mask(rest, n + 1).1)
  {
    var s := Span(c) + rest;
    assert s[0] == '`' && s[1] == c && s[2] == '`';
    assert InlineStop(s, 2) == 2;
    assert InlineStop(s, 1) == 2;
    assert !FenceAt(s, 0) by {
      assert s[0..3][1] == c;
    }
    assert MatchLen(s) == Some(3);
    assert s[..3] == Span(c) && s[3..] == rest;
  }

  /** Restoring block 0 replaces two copies of placeholder 0; afterwards
      placeholder 1 occurs nowhere. */
  lemma RestoreSample(a: char, b: char)
    ensures RestoreInOrder(Placeholder(0) + Placeholder(1) + Placeholder(0)[2..], [Span(a), Span(b)])
      == Span(a) + Placeholder(1)[..14] + Span(a)
  {
    var m := Placeholder(0) + Placeholder(1) + Placeholder(0)[2..];
    var z := Span(a) + Placeholder(1)[..14] + Span(a);
    FirstRestoreSample(a);
    SecondRestoreSample(a, b);
    assert [Span(a), Span(b)][..1] == [Span(a)];
    assert [Span(a)][..0] == [];
    assert RestoreInOrder(m, [Span(a)]) == ReplaceAll(m, Placeholder(0), Span(a)) == z;
    assert RestoreInOrder(m, [Span(a), Span(b)]) == ReplaceAll(z, Placeholder(1), Span(b));
  }

  lemma FirstRestoreSample(a: char)
    ensures ReplaceAll(Placeholder(0) + Placeholder(1) + Placeholder(0)[2..], Placeholder(0), Span(a))
      == Span(a) + Placeholder(1)[..14] + Span(a)
  {
    var p0, p1 := Placeholder(0), Placeholder(1);
    var x := p1[..14] + p0;
    SampleTail();
    assert p0 + p1 + p0[2..] == p0 + x;
    assert (p0 + x)[|p0|..] == x;
    assert IsPrefix(p0, p0 + x);
    assert ReplaceAll(p0 + x, p0, Span(a)) == Span(a) + ReplaceAll(x, p0, Span(a));
    TailRestored(a);
  }

  /** Placeholder 1 followed by the tail of placeholder 0 is the first
      fourteen characters of placeholder 1 followed by placeholder 0. */
  lemma SampleTail()
    ensures Placeholder(1) + Placeholder(0)[2..] == Placeholder(1)[..14] + Placeholder(0)
  {
    PlaceholderDigits();
  }

  /** In "CODE_BLOCK_1" followed by placeholder 0 only that placeholder is
      replaced. */
  lemma TailRestored(a: char)
    ensures ReplaceAll(Placeholder(1)[..14] + Placeholder(0), Placeholder(0), Span(a))
      == Placeholder(1)[..14] + Span(a)
  {
    var p0, p1 := Placeholder(0), Placeholder(1);
    var y := p1[..14];
    var x := y + p0;
    NoPlaceholderZeroInHead();
    ReplaceAllSkips(x, 14, p0, Span(a));
    assert x[14..] == p0 && x[..14] == y;
    assert p0[|p0|..] == [];
    assert ReplaceAll(p0, p0, Span(a)) == Span(a);
  }

  /** Placeholder 0 starts at none of the first fourteen positions. */
  lemma NoPlaceholderZeroInHead()
    ensures var x := Placeholder(1)[..14] + Placeholder(0);
      forall i :: 0 <= i < 14 ==> !IsPrefix(Placeholder(0), x[i..])
  {
    PlaceholderDigits();
    var p0, p1 := Placeholder(0), Placeholder(1);
    var y := p1[..14];
    var x := y + p0;
    forall i | 0 <= i < 14
      ensures !IsPrefix(p0, x[i..])
    {
      if i == 0 {
        NotPrefixAt(p0, x, 13);
      } else if i == 1 {
        NotPrefixAt(p0, x[1..], 1);
      } else {
        assert x[i..] == y[i..] + p0 + [];
        PlaceholderAfterShort(y[i..], 0, [], 0);
      }
    }
  }

  lemma SecondRestoreSample(a: char, b: char)
    ensures var z := Span(a) + Placeholder(1)[..14] + Span(a);
      ReplaceAll(z, Placeholder(1), Span(b)) == z
  {
    PlaceholderDigits();
    var p1 := Placeholder(1);
    var z := Span(a) + p1[..14] + Span(a);
    forall i | 0 <= i < |z|
      ensures !IsPrefix(p1, z[i..])
    {
      if i == 0 {
        NotPrefixAt(p1, z, 0);
      } else if i == 1 {
        NotPrefixAt(p1, z[1..], 1);
      } else if i == 2 {
        NotPrefixAt(p1, z[2..], 0);
      } else if i == 3 {
        NotPrefixAt(p1, z[3..], 14);
      } else if i == 4 {
        NotPrefixAt(p1, z[4..], 1);
      }
    }
    ReplaceAllSkips(z, |z|, p1, Span(b));
    assert z[..|z|] == z && z[|z|..] == [];
  }

  /** The sample content holds no marker. */
  lemma NoMarkerInSample(a: char, b: char)
    ensures !Contains(Span(a) + Span(b) + Placeholder(0)[2..], Marker)
  {
    PlaceholderDigits();
    var p0 := Placeholder(0);
    var s := Span(a) + Span(b) + p0[2..];
    assert |s| == 20;
    assert s[0] == '`' && s[2] == '`' && s[3] == '`' && s[5] == '`';
    assert s[6] == p0[2] == 'C' && s[7] == p0[3] == 'O';
    forall i | 0 <= i <= |s|
      ensures !IsPrefix(Marker, s[i..])
    {
      if i + 13 <= |s| {
        var k := if i == 1 || i == 4 then 1 else 0;
        assert s[i..][k] == s[i + k];
        NotPrefixAt(Marker, s[i..], k);
      }
    }
    NoPrefixNoContains(s, Marker);
  }

  /** A text in which `sub` starts nowhere does not contain it. */
  lemma {:induction false} NoPrefixNoContains(s: string, sub: string)
    requires forall i :: 0 <= i <= |s| ==> !IsPrefix(sub, s[i..])
    ensures !Contains(s, sub)
    decreases |s|
  {
    assert s[0..] == s;
    if |s| > 0 {
      forall i | 0 <= i <= |s| - 1
        ensures !IsPrefix(sub, s[1..][i..])
      {
        assert s[1..][i..] == s[i + 1..];
      }
      NoPrefixNoContains(s[1..], sub);
    }
  }

  // Corrected: one left-to-right pass over the translated text.

  /** The first placeholder among `j`, ..., `count - 1` that starts `t`. */
  function FirstPlaceholder(t: string, count: nat, j: nat): (r: Option<nat>)
    ensures r.Some? ==> j <= r.value < count && IsPrefix(Placeholder(r.value), t)
    ensures r.None? ==> forall k :: j <= k < count ==> !IsPrefix(Placeholder(k), t)
    decreases count - j
  {
    if j >= count then None
    else if IsPrefix(Placeholder(j), t) then Some(j)
    else FirstPlaceholder(t, count, j + 1)
  }

  /** Restores the code spans in a single scan: where a placeholder of a
      collected block starts, the block is emitted and the scan resumes
      after the placeholder; any other character is copied. Text produced
      by a block is never scanned again. */
  function RestoreOnePass(t: string, blocks: seq<string>): string
    decreases |t|
  {
    if t == [] then []
    else match FirstPlaceholder(t, |blocks|, 0)
      case Some(j) => blocks[j] + RestoreOnePass(t[|Placeholder(j)|..], blocks)
      case None => [t[0]] + RestoreOnePass(t[1..], blocks)
  }

  /** After at least one literal character, the masked text does not start
      with a placeholder, provided the content holds no marker. */
  lemma {:induction false} LiteralThenMasked(w: string, s: string, n: nat, j: nat)
    requires |w| >= 1 && !Contains(w + s, Marker)
    ensures !IsPrefix(Placeholder(j), w + Mask(s, n).0)
    decreases |s|
  {
    if |w| >= 13 {
      NoMarkerAtStart(w, s);
      LongLiteralNotPlaceholder(w, Mask(s, n).0, NatToString(j));
    } else if s == [] {
      assert w + Mask(s, n).0 == w;
    } else if MatchLen(s).Some? {
      ShortLiteralThenBlock(w, s, n, j);
    } else {
      LiteralShift(w, s, n);
      LiteralThenMasked(w + [s[0]], s[1..], n, j);
    }
  }

  /** Thirteen literal characters of a content without the marker are not
      the marker. */
  lemma NoMarkerAtStart(w: string, s: string)
    requires |w| >= 13 && !Contains(w + s, Marker)
    ensures w[..13] != Marker
  {
    assert !IsPrefix(Marker, w + s);
    assert (w + s)[..13] == w[..13];
  }

  /** A text whose first thirteen characters are not the marker does not
      start with a placeholder. */
  lemma LongLiteralNotPlaceholder(w: string, rest: string, d: string)
    requires |w| >= 13 && w[..13] != Marker
    ensures !IsPrefix(Tag(d), w + rest)
  {
    var k := FirstDifference(w[..13], Marker);
    assert (w + rest)[k] == w[..13][k];
    NotPrefixAt(Tag(d), w + rest, k);
  }

  /** A code span right after a short literal: its placeholder is too close
      for another placeholder to start at the literal. */
  lemma ShortLiteralThenBlock(w: string, s: string, n: nat, j: nat)
    requires 1 <= |w| <= 12 && s != [] && MatchLen(s).Some?
    ensures !IsPrefix(Placeholder(j), w + Mask(s, n).0)
  {
    var tail := Mask(s[MatchLen(s).value..], n + 1).0;
    assert Mask(s, n).0 == Placeholder(n) + tail;
    assert w + Mask(s, n).0 == w + Placeholder(n) + tail;
    PlaceholderAfterShort(w, n, tail, j);
  }

  /** A character that starts no code span moves from the masked content
      to the literal before it. */
  lemma LiteralShift(w: string, s: string, n: nat)
    requires s != [] && MatchLen(s).None?
    ensures w + Mask(s, n).0 == (w + [s[0]]) + Mask(s[1..], n).0
    ensures (w + [s[0]]) + s[1..] == w + s
  {
    MaskLiteralStep(s, n);
    assert [s[0]] + s[1..] == s;
  }

  /** Masking copies a character that starts no code span. */
  lemma MaskLiteralStep(s: string, n: nat)
    requires s != [] && MatchLen(s).None?
    ensures Mask(s, n) == ([s[0]] + Mask(s[1..], n).0, Mask(s[1..], n).1)
  {
  }

  /** The blocks a masking collects sit at positions `n`, `n + 1`, ... of `blocks`. */
  predicate BlocksFrom(masked: (string, seq<string>), n: nat, blocks: seq<string>) {
    n + |masked.1| <= |blocks| &&
    forall k :: 0 <= k < |masked.1| ==> blocks[n + k] == masked.1[k]
  }

  /** The one-pass restore inverts masking, for blocks numbered from `n`
      inside a longer list. */
  lemma {:induction false} RestoreInvertsMask(s: string, n: nat, blocks: seq<string>)
    requires !Contains(s, Marker)
    requires BlocksFrom(Mask(s, n), n, blocks)
    ensures RestoreOnePass(Mask(s, n).0, blocks) == s
    decreases |s|, 1
  {
    if s != [] {
      if MatchLen(s).Some? {
        RestoreThroughBlock(s, n, blocks, MatchLen(s).value);
      } else {
        RestoreThroughLiteral(s, n, blocks);
      }
    }
  }

  lemma {:induction false} RestoreThroughBlock(s: string, n: nat, blocks: seq<string>, m: nat)
    requires s != [] && MatchLen(s) == Some(m) && !Contains(s, Marker)
    requires BlocksFrom(Mask(s, n), n, blocks)
    ensures RestoreOnePass(Mask(s, n).0, blocks) == s
    decreases |s|, 0
  {
    ContainsSuffixHelper(s, m);
    BlocksAfterBlock(s, n, blocks, m);
    RestoreAtBlock(s, n, blocks, m);
    RestoreInvertsMask(s[m..], n + 1, blocks);
    SplitAt(s, m);
  }

  lemma {:induction false} RestoreThroughLiteral(s: string, n: nat, blocks: seq<string>)
    requires s != [] && MatchLen(s).None? && !Contains(s, Marker)
    requires BlocksFrom(Mask(s, n), n, blocks)
    ensures RestoreOnePass(Mask(s, n).0, blocks) == s
    decreases |s|, 0
  {
    RestoreAtLiteral(s, n, blocks);
    ContainsSuffixHelper(s, 1);
    RestoreInvertsMask(s[1..], n, blocks);
    assert [s[0]] + s[1..] == s;
  }

  /** A code span of the content: its placeholder is found and the block
      emitted. */
  lemma RestoreAtBlock(s: string, n: nat, blocks: seq<string>, m: nat)
    requires s != [] && MatchLen(s) == Some(m)
    requires BlocksFrom(Mask(s, n), n, blocks)
    ensures RestoreOnePass(Mask(s, n).0, blocks)
      == s[..m] + RestoreOnePass(Mask(s[m..], n + 1).0, blocks)
  {
    var rest := Mask(s[m..], n + 1);
    MaskBlockStep(s, n, m);
    BlocksShift(s[..m], rest.1, n, blocks);
    RestorePlaceholder(n, rest.0, blocks);
  }

  /** The blocks of the rest of the content follow the span's block. */
  lemma BlocksAfterBlock(s: string, n: nat, blocks: seq<string>, m: nat)
    requires s != [] && MatchLen(s) == Some(m)
    requires BlocksFrom(Mask(s, n), n, blocks)
    ensures BlocksFrom(Mask(s[m..], n + 1), n + 1, blocks)
  {
    var rest := Mask(s[m..], n + 1);
    MaskBlockStep(s, n, m);
    BlocksShift(s[..m], rest.1, n, blocks);
  }

  /** Masking replaces a code span by the next placeholder. */
  lemma MaskBlockStep(s: string, n: nat, m: nat)
    requires s != [] && MatchLen(s) == Some(m)
    ensures Mask(s, n) == (Placeholder(n) + Mask(s[m..], n + 1).0, [s[..m]] + Mask(s[m..], n + 1).1)
  {
  }

  /** The blocks after the first one sit one position further on. */
  lemma BlocksShift(b: string, rest: seq<string>, n: nat, blocks: seq<string>)
    requires n + 1 + |rest| <= |blocks|
    requires forall k :: 0 <= k < 1 + |rest| ==> blocks[n + k] == ([b] + rest)[k]
    ensures blocks[n] == b
    ensures forall k :: 0 <= k < |rest| ==> blocks[n + 1 + k] == rest[k]
  {
    assert blocks[n + 0] == ([b] + rest)[0];
    forall k | 0 <= k < |rest|
      ensures blocks[n + 1 + k] == rest[k]
    {
      assert blocks[n + (k + 1)] == ([b] + rest)[k + 1];
    }
  }

  /** Where the placeholder of block `n` starts, the one-pass restore emits
      that block and resumes after the placeholder. */
  lemma RestorePlaceholder(n: nat, tail: string, blocks: seq<string>)
    requires n < |blocks|
    ensures RestoreOnePass(Placeholder(n) + tail, blocks) == blocks[n] + RestoreOnePass(tail, blocks)
  {
    var t := Placeholder(n) + tail;
    forall k | 0 <= k < |blocks| && k != n
      ensures !IsPrefix(Placeholder(k), t)
    {
      PlaceholderDistinct(k, n, tail);
    }
    FirstPlaceholderIs(t, |blocks|, 0, n);
    assert t[|Placeholder(n)|..] == tail;
  }

  /** The first matching placeholder is the only one that matches. */
  lemma {:induction false} FirstPlaceholderIs(t: string, count: nat, j: nat, n: nat)
    requires j <= n < count && IsPrefix(Placeholder(n), t)
    requires forall k :: j <= k < count && k != n ==> !IsPrefix(Placeholder(k), t)
    ensures FirstPlaceholder(t, count, j) == Some(n)
    decreases n - j
  {
    if j < n {
      FirstPlaceholderIs(t, count, j + 1, n);
    }
  }

  /** A literal character of the content: no placeholder starts there, so
      it is copied. */
  lemma RestoreAtLiteral(s: string, n: nat, blocks: seq<string>)
    requires s != [] && MatchLen(s).None? && !Contains(s, Marker)
    requires BlocksFrom(Mask(s, n), n, blocks)
    ensures BlocksFrom(Mask(s[1..], n), n, blocks)
    ensures RestoreOnePass(Mask(s, n).0, blocks) == [s[0]] + RestoreOnePass(Mask(s[1..], n).0, blocks)
  {
    var rest := Mask(s[1..], n);
    var t := [s[0]] + rest.0;
    assert Mask(s, n) == (t, rest.1);
    assert [s[0]] + s[1..] == s;
    forall k | 0 <= k < |blocks|
      ensures !IsPrefix(Placeholder(k), t)
    {
      LiteralThenMasked([s[0]], s[1..], n, k);
    }
    assert FirstPlaceholder(t, |blocks|, 0).None?;
    assert t[1..] == rest.0;
  }

  /** A suffix of a text without the marker holds no marker either. */
  lemma ContainsSuffixHelper(s: string, k: nat)
    requires k <= |s| && !Contains(s, Marker)
    ensures !Contains(s[k..], Marker)
  {
    if Contains(s[k..], Marker) {
      ContainsInSuffix(s, k, Marker);
    }
  }

  /** `_translate_with_code_preservation` with the one-pass restore. */
  function CodePreserved(t: Translator, content: string, src: string, tgt: string): string {
    var masked := Mask(content, 0);
    RestoreOnePass(TranslateText(t, masked.0, src, tgt), masked.1)
  }

  /** Code-preservation round trip: when the model gives the masked text
      back unchanged and the content holds no marker, the content comes
      back exactly, every code span verbatim in its place. */
  lemma CodePreservationRoundTrip(t: Translator, content: string, src: string, tgt: string)
    requires !Contains(content, Marker)
    requires t.llm.text(Mask(content, 0).0, src, tgt) in {None, Some(Mask(content, 0).0)}
    ensures CodePreserved(t, content, src, tgt) == content
  {
    var masked := Mask(content, 0);
    assert TranslateText(t, masked.0, src, tgt) == masked.0;
    RestoreInvertsMask(content, 0, masked.1);
  }

  // ---------------------------------------------------------------------
  // HTML and dispatch

  /** Text under these tags is never sent to the model. */
  const Untranslated: set<string> := {"script", "style", "code", "pre"}

  /** A text node `_translate_html` sends to the model: outside code and
      scripts, and longer than 10 characters once stripped. */
  predicate Substantial(node: TextNode) {
    node.parent !in Untranslated && |Strip(node.text)| > 10
  }

  /** One step of `_translate_html`: a substantial text node is replaced by
      the translation of its stripped text. */
  function TranslateNode(t: Translator, node: TextNode, src: string, tgt: string): (r: TextNode)
    ensures r.parent == node.parent
    ensures node.parent in Untranslated ==> r == node
    ensures |Strip(node.text)| <= 10 ==> r == node
    ensures r != node ==> r.text == TranslateText(t, Strip(node.text), src, tgt)
    ensures node.parent !in Untranslated && |Strip(node.text)| > 10 ==>
      r == node.(text := TranslateText(t, Strip(node.text), src, tgt))
  {
    if Substantial(node) then node.(text := TranslateText(t, Strip(node.text), src, tgt))
    else node
  }

  /** Every text node of the document, translated where substantial. */
  function TranslateNodes(t: Translator, nodes: seq<TextNode>, src: string, tgt: string): (r: seq<TextNode>)
    ensures |r| == |nodes|
    ensures forall i {:trigger r[i]} :: 0 <= i < |nodes| ==> r[i] == TranslateNode(t, nodes[i], src, tgt)
  {
    seq(|nodes|, i requires 0 <= i < |nodes| => TranslateNode(t, nodes[i], src, tgt))
  }

  /** `_translate_html` on the parsed document: every text node in turn,
      replaced in place. */
  method TranslateHtmlNodes(t: Translator, nodes: array<TextNode>, src: string, tgt: string)
    modifies nodes
    ensures nodes[..] == TranslateNodes(t, old(nodes[..]), src, tgt)
  {
    ghost var before := nodes[..];
    ghost var goal := TranslateNodes(t, before, src, tgt);
    var i := 0;
    while i < nodes.Length
      invariant 0 <= i <= nodes.Length
      invariant nodes[..] == goal[..i] + before[i..]
    {
      var node := TranslateNode(t, nodes[i], src, tgt);
      Advance(before, goal, nodes[..], i, node);
      nodes[i] := node;
      i := i + 1;
    }
    assert before[i..] == [];
    assert goal[..i] == goal;
  }

  /** One step of `TranslateHtmlNodes`: replacing node `i` by its
      translation extends the translated prefix by one. */
  lemma Advance(before: seq<TextNode>, goal: seq<TextNode>, cur: seq<TextNode>, i: nat, node: TextNode)
    requires i < |before| == |goal| && cur == goal[..i] + before[i..]
    requires node == goal[i]
    ensures cur[i := node] == goal[..i + 1] + before[i + 1..]
  {
    assert cur[i := node] == goal[..i + 1] + before[i + 1..];
  }

  /** The document printed back after `TranslateHtmlNodes`. */
  function TranslateHtml(t: Translator, content: string, src: string, tgt: string): string {
    t.soup.render(content, TranslateNodes(t, t.soup.textNodes(content), src, tgt))
  }

  /** `translate_and_rewrite` (with the one-pass restore on the code path). */
  function TranslateAndRewrite(t: Translator, content: string, src: string, tgt: string): (r: string)
    ensures !t.enabled ==> r == content
    ensures t.enabled && '`' in content ==> r == CodePreserved(t, content, src, tgt)
    ensures t.enabled && '`' !in content ==>
      r == if t.soup.hasTags(content) then TranslateHtml(t, content, src, tgt)
           else TranslateText(t, content, src, tgt)
  {
    if !t.enabled then content
    else if Contains(content, "```") || '`' in content then
      FenceHasBacktick(content);
      CodePreserved(t, content, src, tgt)
    else if t.soup.hasTags(content) then TranslateHtml(t, content, src, tgt)
    else TranslateText(t, content, src, tgt)
  }

  /** A text containing a fence contains a backtick. */
  lemma FenceHasBacktick(s: string)
    ensures Contains(s, "```") ==> '`' in s
  {
    if Contains(s, "```") {
      ContainsOccurs(s, "```");
      var i :| OccursAt(s, "```", i);
      assert s[i] == s[i..i + 3][0];
    }
  }

  // ---------------------------------------------------------------------
  // Titles

  /** Leaked answer prefixes the title clean-up removes. */
  const LeakedPrefixes: seq<string> := ["Título traduzido:", "Resposta:", "Here is", "Aqui está"]

  /** Case-insensitive `startswith`. */
  predicate StartsWithIgnoringCase(p: string, s: string) {
    |p| <= |s| && Lower(s[..|p|]) == Lower(p)
  }

  /** Index of the first ':' at or after `k` with no line feed before it
      (the lazy `.*?:`). */
  function ColonAfter(s: string, k: nat): (r: Option<nat>)
    ensures r.Some? ==> k <= r.value < |s| && s[r.value] == ':'
    ensures r.Some? ==> forall j :: k <= j < r.value ==> s[j] != ':' && s[j] != '\n'
    decreases |s| - k
  {
    if k >= |s| || s[k] == '\n' then None
    else if s[k] == ':' then Some(k)
    else ColonAfter(s, k + 1)
  }

  /** The first `re.sub` of `_clean_title`: a leaked prefix at the very
      start, followed on the same line by a colon, is removed up to and
      including that colon. */
  function StripLeakedPrefix(s: string, alternatives: seq<string>): (r: string)
    ensures |r| <= |s| && r == s[|s| - |r|..]
    ensures (forall p :: p in alternatives ==> !StartsWithIgnoringCase(p, s)) ==> r == s
    decreases |alternatives|
  {
    if alternatives == [] then s
    else
      var p := alternatives[0];
      if StartsWithIgnoringCase(p, s) && ColonAfter(s, |p|).Some? then
        s[ColonAfter(s, |p|).value + 1..]
      else StripLeakedPrefix(s, alternatives[1..])
  }

  /** Wrapped in one pair of matching double or single quotes. */
  predicate Quoted(s: string) {
    |s| >= 1 && ((s[0] == '"' && s[|s| - 1] == '"') || (s[0] == '\'' && s[|s| - 1] == '\''))
  }

  /** Python `s[1:-1]`. */
  function Inner(s: string): (r: string)
    ensures |s| >= 2 ==> r == s[1..|s| - 1]
    ensures |s| < 2 ==> r == []
  {
    if |s| >= 2 then s[1..|s| - 1] else []
  }

  /** One pair of surrounding quotes removed, if there is one. */
  function Unquoted(s: string): (r: string)
    ensures Quoted(s) ==> |r| + 2 == |s| || (|s| == 1 && r == [])
    ensures !Quoted(s) ==> r == s
  {
    if Quoted(s) then Inner(s) else s
  }

  /** The WordPress length cap: longer titles keep 97 characters and "...". */
  function Capped(s: string): (r: string)
    ensures |r| <= 100
    ensures |s| <= 100 ==> r == s
    ensures |s| > 100 ==> r == s[..97] + "..."
  {
    if |s| > 100 then s[..97] + "..." else s
  }

  /** `_clean_title` after the prefix removal: strip, drop one pair of
      surrounding quotes, cap the length, strip again. */
  function Tidy(s: string): (r: string)
    ensures |r| <= 100
    ensures r == [] || (!IsSpace(r[0]) && !IsSpace(r[|r| - 1]))
  {
    Strip(Capped(Unquoted(Strip(s))))
  }

  /** `_clean_title`: the result is stripped and at most 100 characters. */
  function CleanTitle(title: string): (r: string)
    ensures |r| <= 100
    ensures r == [] || (!IsSpace(r[0]) && !IsSpace(r[|r| - 1]))
  {
    Tidy(StripLeakedPrefix(title, LeakedPrefixes))
  }

  /** A title wrapped in quotes loses exactly that pair of quotes. */
  lemma CleanTitleDropsQuotes(x: string, q: char)
    requires q == '"' || q == '\''
    requires |x| <= 100 && (x == [] || (!IsSpace(x[0]) && !IsSpace(x[|x| - 1])))
    ensures CleanTitle([q] + x + [q]) == x
  {
    var s := [q] + x + [q];
    NoLeakedPrefixBeforeQuote(s);
    KeptWithoutLeakedPrefix(s, LeakedPrefixes);
    TidyDropsQuotes(x, q);
  }

  lemma TidyDropsQuotes(x: string, q: char)
    requires q == '"' || q == '\''
    requires |x| <= 100 && (x == [] || (!IsSpace(x[0]) && !IsSpace(x[|x| - 1])))
    ensures Tidy([q] + x + [q]) == x
  {
    var s := [q] + x + [q];
    assert Quoted(s) && |s| >= 2;
    assert Inner(s) == x;
    StripOfStripped(s);
    StripOfStripped(x);
  }

  lemma KeptWithoutLeakedPrefix(s: string, alternatives: seq<string>)
    requires forall p :: p in alternatives ==> !StartsWithIgnoringCase(p, s)
    ensures StripLeakedPrefix(s, alternatives) == s
  {
  }

  /** Every leaked prefix starts with a letter, so none starts a text
      that begins with a quote. */
  lemma NoLeakedPrefixBeforeQuote(s: string)
    requires |s| >= 1 && (s[0] == '"' || s[0] == '\'')
    ensures forall p :: p in LeakedPrefixes ==> !StartsWithIgnoringCase(p, s)
  {
    forall p | p in LeakedPrefixes
      ensures !StartsWithIgnoringCase(p, s)
    {
      assert 'A' <= p[0] <= 'Z';
      if |p| <= |s| {
        NotPrefixAt(Lower(p), Lower(s[..|p|]), 0);
      }
    }
  }

  /** A clean title (no leaked prefix, no quotes, no surrounding white
      space, at most 100 characters) is kept as it is. */
  lemma CleanTitleKeepsCleanTitle(s: string)
    requires |s| <= 100 && (s == [] || (!IsSpace(s[0]) && !IsSpace(s[|s| - 1])))
    requires !Quoted(s)
    requires forall p :: p in LeakedPrefixes ==> !StartsWithIgnoringCase(p, s)
    ensures CleanTitle(s) == s
  {
    assert StripLeakedPrefix(s, LeakedPrefixes) == s;
    StripOfStripped(s);
  }

  /** A title longer than 100 characters is cut to its first 97 characters
      followed by "...". */
  lemma CleanTitleCutsLongTitle(s: string)
    requires |s| > 100 && !IsSpace(s[0]) && !IsSpace(s[|s| - 1]) && !Quoted(s)
    requires forall p :: p in LeakedPrefixes ==> !StartsWithIgnoringCase(p, s)
    ensures CleanTitle(s) == s[..97] + "..."
  {
    KeptWithoutLeakedPrefix(s, LeakedPrefixes);
    StripOfStripped(s);
    assert Unquoted(Strip(s)) == s;
    var v := s[..97] + "...";
    assert Capped(s) == v;
    assert v[0] == s[0] && v[|v| - 1] == '.';
    StripOfStripped(v);
    assert Tidy(s) == v;
  }

  /** `_translate_title`: short titles and failing calls give the title back. */
  function TranslateTitle(t: Translator, title: string, src: string, tgt: string): (r: string)
    ensures title == [] || |Strip(title)| < 3 ==> r == title
    ensures t.llm.title(title, src, tgt).None? ==> r == title
    ensures r != title ==>
      (t.llm.title(title, src, tgt).Some? &&
       r == t.llm.dehyphen(CleanTitle(Strip(t.llm.title(title, src, tgt).value))))
  {
    if title == [] || |Strip(title)| < 3 then title
    else match t.llm.title(title, src, tgt)
      case None => title
      case Some(answer) => t.llm.dehyphen(CleanTitle(Strip(answer)))
  }

  // ---------------------------------------------------------------------
  // Whole articles

  /** The language an article is taken to be in. */
  function SourceLang(a: Article): string {
    OrElse(a.lang, "en")
  }

  /** The article after `translate_article`. */
  function TranslatedArticle(t: Translator, a: Article, target: string): (r: Article)
    ensures !t.enabled || SourceLang(a) == target ==> r == a
    ensures t.enabled && SourceLang(a) != target ==> r.lang == Some(target) && r.translated
    ensures r == a.(title := r.title, subtitle := r.subtitle, content := r.content,
                    lang := r.lang, translated := r.translated)
    ensures !Truthy(a.title) ==> r.title == a.title
    ensures !Truthy(a.subtitle) ==> r.subtitle == a.subtitle
    ensures !Truthy(a.content) ==> r.content == a.content
  {
    if !t.enabled || SourceLang(a) == target then a
    else
      var src := SourceLang(a);
      a.(title := if Truthy(a.title) then Some(TranslateTitle(t, a.title.value, src, target)) else a.title,
         subtitle := if Truthy(a.subtitle) then Some(TranslateText(t, a.subtitle.value, src, target)) else a.subtitle,
         content := if Truthy(a.content) then Some(TranslateAndRewrite(t, a.content.value, src, target)) else a.content,
         lang := Some(target),
         translated := true)
  }

  /** The article dict that `translate_article` updates in place. */
  class ArticleDict {
    var article: Article

    constructor(a: Article)
      ensures article == a
    {
      article := a;
    }
  }

  /** `translate_article`: rewrites the dict field by field. */
  method TranslateArticle(t: Translator, d: ArticleDict, target: string)
    modifies d
    ensures d.article == TranslatedArticle(t, old(d.article), target)
  {
    if !t.enabled {
      return;
    }
    var src := SourceLang(d.article);
    if src == target {
      return;
    }
    if Truthy(d.article.title) {
      d.article := d.article.(title := Some(TranslateTitle(t, d.article.title.value, src, target)));
    }
    if Truthy(d.article.subtitle) {
      d.article := d.article.(subtitle := Some(TranslateText(t, d.article.subtitle.value, src, target)));
    }
    if Truthy(d.article.content) {
      d.article := d.article.(content := Some(TranslateAndRewrite(t, d.article.content.value, src, target)));
    }
    d.article := d.article.(lang := Some(target), translated := true);
  }

  // ---------------------------------------------------------------------
  // Summaries

  /** `content[:max_length] + '...'` when the content is longer than the limit. */
  function Truncated(content: string, maxLength: int): (r: string)
    ensures |content| <= maxLength ==> r == content
    ensures 0 <= maxLength < |content| ==> r == content[..maxLength] + "..."
    ensures maxLength >= 0 ==> |r| <= maxLength + 3
  {
    if |content| > maxLength then PyPrefix(content, maxLength) + "..." else content
  }

  /** `summarize_content`. */
  function SummarizeContent(t: Translator, content: string, maxLength: int): (r: string)
    ensures !t.enabled ==> r == Truncated(content, maxLength)
    ensures t.enabled && t.llm.summary(PyPrefix(content, 2000), maxLength).None? ==>
      r == Truncated(content, maxLength)
    ensures t.enabled && t.llm.summary(PyPrefix(content, 2000), maxLength).Some? && maxLength >= 3 ==>
      |r| <= maxLength
    ensures (t.enabled && maxLength >= 3 && t.llm.summary(PyPrefix(content, 2000), maxLength).Some? &&
             |t.llm.summary(PyPrefix(content, 2000), maxLength).value| > maxLength) ==>
      r == t.llm.summary(PyPrefix(content, 2000), maxLength).value[..maxLength - 3] + "..."
  {
    if !t.enabled then Truncated(content, maxLength)
    else match t.llm.summary(PyPrefix(content, 2000), maxLength)
      case None => Truncated(content, maxLength)
      case Some(summary) =>
        if |summary| > maxLength then PyPrefix(summary, maxLength - 3) + "..." else summary
  }
}
