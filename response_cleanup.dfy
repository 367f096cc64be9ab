/** Clean-up of the raw text the language model returns for a case file,
    before it is handed to the JSON parser:
    1. accidental Markdown code fences around the document are stripped;
    2. inside every double-quoted string literal, raw line feeds, carriage
       returns and tabs are escaped and other control characters are dropped.
    Text is a sequence of Unicode characters; only characters below 32 and the
    ECMAScript whitespace set matter, so UTF-16 code units and code points
    agree on everything below. */
module ResponseCleanup {
  import opened Js

  const Fence: string := "```"

  function AsciiLower(c: char): char {
    if 'A' <= c <= 'Z' then (c as int + 32) as char else c
  }

  predicate StartsWithFence(s: string) {
    |s| >= 3 && s[..3] == Fence
  }

  /** `s` begins with "```json", letters in any case (the `i` flag). */
  predicate StartsWithJsonFence(s: string) {
    |s| >= 7 && StartsWithFence(s)
    && AsciiLower(s[3]) == 'j' && AsciiLower(s[4]) == 's'
    && AsciiLower(s[5]) == 'o' && AsciiLower(s[6]) == 'n'
  }

  /** `s.replace(/^```json\s*\/i, '')` */
  function StripJsonFence(s: string): string {
    if StartsWithJsonFence(s) then TrimStart(s[7..]) else s
  }

  /** `s.replace(/^```\s*\/i, '')` */
  function StripOpeningFence(s: string): string {
    if StartsWithFence(s) then TrimStart(s[3..]) else s
  }

  /** `s.replace(/```\s*$/i, '')`: the regular expression can only match at
      the position three characters before the trailing whitespace. */
  function StripClosingFence(s: string): string {
    var u := TrimEnd(s);
    if |u| >= 3 && u[|u| - 3..] == Fence then u[..|u| - 3] else s
  }

  /** The whole fence-stripping chain, applied in order, then `trim`. */
  function StripFences(raw: string): string {
    Trim(StripClosingFence(StripOpeningFence(StripJsonFence(raw))))
  }

  /** Where `/```\s*$/` matches: a fence followed only by whitespace. */
  ghost predicate ClosingFenceAt(s: string, p: int) {
    0 <= p && p + 3 <= |s| && s[p..p + 3] == Fence
    && forall i :: p + 3 <= i < |s| ==> IsWhitespace(s[i])
  }

  /** StripClosingFence removes exactly what the regular expression matches:
      the text from a match position on, or nothing when there is no match. */
  lemma StripClosingFenceIsRegexReplace(s: string)
    ensures forall p :: ClosingFenceAt(s, p) ==> StripClosingFence(s) == s[..p]
    ensures (forall p :: !ClosingFenceAt(s, p)) ==> StripClosingFence(s) == s
  {
    var u := TrimEnd(s);
    forall p | ClosingFenceAt(s, p) ensures StripClosingFence(s) == s[..p] {
      // The backtick at p + 2 is not whitespace, so it lies inside u, and
      // everything from p + 3 on is whitespace, so it lies outside u.
      assert s[p + 2] == '`';
      assert p + 3 <= |u|;
      assert u[|u| - 1] == s[|u| - 1];
      assert p + 3 == |u|;
      assert u[|u| - 3..] == s[p..p + 3];
    }
    if |u| >= 3 && u[|u| - 3..] == Fence {
      assert ClosingFenceAt(s, |u| - 3);
    }
  }

  /** Text that neither begins with a fence nor ends with one (ignoring
      trailing whitespace) is only trimmed. */
  lemma UnfencedIsOnlyTrimmed(raw: string)
    requires !StartsWithFence(raw)
    requires var u := TrimEnd(raw); !(|u| >= 3 && u[|u| - 3..] == Fence)
    ensures StripFences(raw) == Trim(raw)
  {
    assert !StartsWithJsonFence(raw);
    assert StripJsonFence(raw) == raw;
    assert StripOpeningFence(raw) == raw;
    assert StripClosingFence(raw) == raw;
  }

  /** A body wrapped in a ```json fence (in any letter case) comes back
      exactly, whatever whitespace follows the tag, precedes the closing
      fence or follows it, provided the body has no whitespace at either end
      and does not itself begin with a fence. */
  lemma StripFencesUnwrapsJsonFence(tag: string, lead: string, body: string, gap: string, tail: string)
    requires |tag| == 4 && AsciiLower(tag[0]) == 'j' && AsciiLower(tag[1]) == 's'
             && AsciiLower(tag[2]) == 'o' && AsciiLower(tag[3]) == 'n'
    requires AllWhitespace(lead) && AllWhitespace(gap) && AllWhitespace(tail)
    requires body == [] || (!IsWhitespace(body[0]) && !IsWhitespace(body[|body| - 1]))
    requires !StartsWithFence(body)
    ensures StripFences(Fence + (tag + (lead + (body + (gap + (Fence + tail)))))) == body
  {
    var rest := body + (gap + (Fence + tail));
    JsonFenceStep(tag, lead + rest);
    if body == [] {
      assert rest == gap + (Fence + tail);
      EmptyBodyCase(lead, gap, tail);
    } else if gap == [] && |body| < 3 {
      ShortBodyCase(lead, body, gap, tail);
    } else {
      BodyCase(lead, body, gap, tail);
    }
  }

  /** A body wrapped in a plain ``` fence comes back exactly: the opening
      fence and the whitespace after it go, and so do the closing fence and
      the whitespace around it. A body that begins with a 'j' (in either
      case) needs whitespace after the opening fence, since one beginning
      with "json" would otherwise lose it to the first replace. */
  lemma StripFencesUnwrapsPlainFence(lead: string, body: string, gap: string, tail: string)
    requires AllWhitespace(lead) && AllWhitespace(gap) && AllWhitespace(tail)
    requires body != [] && !IsWhitespace(body[0]) && !IsWhitespace(body[|body| - 1])
    requires lead != [] || AsciiLower(body[0]) != 'j'
    ensures StripFences(Fence + (lead + (body + (gap + (Fence + tail))))) == body
  {
    var rest := body + (gap + (Fence + tail));
    var raw := Fence + (lead + rest);
    assert raw[3] == (lead + rest)[0];
    assert !StartsWithJsonFence(raw);
    assert raw[..3] == Fence;
    assert raw[3..] == lead + rest;
    LeadingWhitespaceDropped(lead, rest);
    ClosingFenceStep(body, gap, tail);
    TrimBodyGap(gap, body);
  }

  predicate AllWhitespace(s: string) {
    forall i :: 0 <= i < |s| ==> IsWhitespace(s[i])
  }

  lemma JsonFenceStep(tag: string, t: string)
    requires |tag| == 4 && AsciiLower(tag[0]) == 'j' && AsciiLower(tag[1]) == 's'
             && AsciiLower(tag[2]) == 'o' && AsciiLower(tag[3]) == 'n'
    ensures StripJsonFence(Fence + (tag + t)) == TrimStart(t)
  {
    var raw := Fence + (tag + t);
    assert raw[..3] == Fence;
    assert raw[3] == tag[0] && raw[4] == tag[1] && raw[5] == tag[2] && raw[6] == tag[3];
    assert raw[7..] == t;
  }

  lemma EmptyBodyCase(lead: string, gap: string, tail: string)
    requires AllWhitespace(lead) && AllWhitespace(gap) && AllWhitespace(tail)
    ensures Trim(StripClosingFence(StripOpeningFence(TrimStart(lead + (gap + (Fence + tail)))))) == []
  {
    assert lead + (gap + (Fence + tail)) == (lead + gap) + (Fence + tail);
    LeadingWhitespaceDropped(lead + gap, Fence + tail);
    OpeningFenceOfWhitespace(tail);
  }

  lemma OpeningFenceOfWhitespace(w: string)
    requires AllWhitespace(w)
    ensures StripOpeningFence(Fence + w) == []
  {
    assert (Fence + w)[..3] == Fence;
    assert (Fence + w)[3..] == w;
    LeadingWhitespaceDropped(w, []);
    assert w + [] == w;
  }

  lemma BodyCase(lead: string, body: string, gap: string, tail: string)
    requires AllWhitespace(lead) && AllWhitespace(gap) && AllWhitespace(tail)
    requires body != [] && !IsWhitespace(body[0]) && !IsWhitespace(body[|body| - 1])
    requires !StartsWithFence(body)
    requires gap != [] || |body| >= 3
    ensures Trim(StripClosingFence(StripOpeningFence(TrimStart(lead + (body + (gap + (Fence + tail))))))) == body
  {
    var rest := body + (gap + (Fence + tail));
    LeadingWhitespaceDropped(lead, rest);
    NoFenceBeforeGap(body, gap, Fence + tail);
    ClosingFenceStep(body, gap, tail);
    TrimBodyGap(gap, body);
  }

  /** A body of one or two characters right against the closing fence: if
      it is made of backticks, the opening-fence replace takes three of them
      and leaves the body; otherwise only the closing fence goes. */
  lemma ShortBodyCase(lead: string, body: string, gap: string, tail: string)
    requires AllWhitespace(lead) && AllWhitespace(tail) && gap == []
    requires 0 < |body| < 3 && !IsWhitespace(body[0]) && !IsWhitespace(body[|body| - 1])
    ensures Trim(StripClosingFence(StripOpeningFence(TrimStart(lead + (body + (gap + (Fence + tail))))))) == body
  {
    var r := body + (Fence + tail);
    assert gap + (Fence + tail) == Fence + tail;
    LeadingWhitespaceDropped(lead, r);
    ShortBody(body, tail);
  }

  lemma ShortBody(body: string, tail: string)
    requires AllWhitespace(tail)
    requires 0 < |body| < 3 && !IsWhitespace(body[0]) && !IsWhitespace(body[|body| - 1])
    ensures Trim(StripClosingFence(StripOpeningFence(body + (Fence + tail)))) == body
  {
    if StartsWithFence(body + (Fence + tail)) {
      ShortBackticksBody(body, tail);
    } else {
      ShortPlainBody(body, tail);
    }
  }

  lemma ShortBackticksBody(body: string, tail: string)
    requires AllWhitespace(tail)
    requires 0 < |body| < 3 && !IsWhitespace(body[0]) && !IsWhitespace(body[|body| - 1])
    requires StartsWithFence(body + (Fence + tail))
    ensures Trim(StripClosingFence(StripOpeningFence(body + (Fence + tail)))) == body
  {
    BackticksBodyKept(body, tail);
    TrailingWhitespaceDropped(body, tail);
    assert StripClosingFence(body + tail) == body + tail;
    TrimBodyGap(tail, body);
  }

  lemma ShortPlainBody(body: string, tail: string)
    requires AllWhitespace(tail)
    requires 0 < |body| < 3 && !IsWhitespace(body[0]) && !IsWhitespace(body[|body| - 1])
    requires !StartsWithFence(body + (Fence + tail))
    ensures Trim(StripClosingFence(StripOpeningFence(body + (Fence + tail)))) == body
  {
    ClosingFenceStep(body, [], tail);
    assert body + ([] + (Fence + tail)) == body + (Fence + tail);
    assert body + [] == body;
    TrimOfTrimmed(body);
  }

  /** A short body that forms an opening fence with the closing one is all
      backticks, and dropping the first three characters leaves it whole. */
  lemma BackticksBodyKept(body: string, tail: string)
    requires 0 < |body| < 3 && !IsWhitespace(body[0])
    requires StartsWithFence(body + (Fence + tail))
    ensures StripOpeningFence(body + (Fence + tail)) == body + tail
  {
    var r := body + (Fence + tail);
    forall i | 0 <= i < |body| ensures body[i] == '`' {
      assert r[i] == r[..3][i];
    }
    assert r[3..] == body + tail by {
      forall j | 0 <= j < |body| + |tail| ensures r[3..][j] == (body + tail)[j] {
        if j < |body| {
          assert r[3 + j] == (Fence + tail)[3 + j - |body|];
        } else {
          assert r[3 + j] == (Fence + tail)[3 + j - |body|];
        }
      }
    }
    LeadingWhitespaceDropped([], body + tail);
    assert [] + (body + tail) == body + tail;
  }

  lemma NoFenceBeforeGap(body: string, gap: string, t: string)
    requires body != [] && !StartsWithFence(body)
    requires (gap != [] && IsWhitespace(gap[0])) || |body| >= 3
    ensures StripOpeningFence(body + (gap + t)) == body + (gap + t)
  {
    var r := body + (gap + t);
    if |body| >= 3 {
      assert r[..3] == body[..3];
    } else if |r| >= 3 {
      assert r[|body|] == gap[0];
      assert r[..3][|body|] == r[|body|];
    }
  }

  lemma ClosingFenceStep(body: string, gap: string, tail: string)
    requires AllWhitespace(tail)
    ensures StripClosingFence(body + (gap + (Fence + tail))) == body + gap
  {
    var u := (body + gap) + Fence;
    assert body + (gap + (Fence + tail)) == u + tail;
    TrailingWhitespaceDropped(u, tail);
    assert u[|u| - 3..] == Fence;
    assert u[..|u| - 3] == body + gap;
  }

  lemma TrimBodyGap(gap: string, body: string)
    requires AllWhitespace(gap)
    requires body != [] && !IsWhitespace(body[0]) && !IsWhitespace(body[|body| - 1])
    ensures Trim(body + gap) == body
  {
    assert TrimStart(body + gap) == body + gap;
    TrailingWhitespaceDropped(body, gap);
    TrimOfTrimmed(body);
  }

  lemma LeadingWhitespaceDropped(w: string, t: string)
    requires AllWhitespace(w)
    requires t == [] || !IsWhitespace(t[0])
    ensures TrimStart(w + t) == t
  {
    if w != [] {
      assert (w + t)[1..] == w[1..] + t;
      LeadingWhitespaceDropped(w[1..], t);
    }
  }

  lemma TrailingWhitespaceDropped(t: string, w: string)
    requires AllWhitespace(w)
    requires t == [] || !IsWhitespace(t[|t| - 1])
    ensures TrimEnd(t + w) == t
  {
    if w != [] {
      assert (t + w)[..|t + w| - 1] == t + w[..|w| - 1];
      TrailingWhitespaceDropped(t, w[..|w| - 1]);
    }
  }

  // ---------------------------------------------------------------------
  // The string-literal scan: `/"(?:[^"\\]|\\.)*"/g`
  // ---------------------------------------------------------------------

  /** Reference grammar of what the regular expression matches: a quote, a
      body, a quote. */
  ghost predicate IsStringLiteral(t: string) {
    |t| >= 2 && t[0] == '"' && t[|t| - 1] == '"' && IsLiteralBody(t[1..|t| - 1])
  }

  /** `(?:[^"\\]|\\.)*`: characters other than quote and backslash, and
      backslash pairs whose second character is not a line terminator. */
  ghost predicate IsLiteralBody(b: string)
    decreases |b|
  {
    || b == []
    || (b[0] != '"' && b[0] != '\\' && IsLiteralBody(b[1..]))
    || (|b| >= 2 && b[0] == '\\' && !IsLineTerminator(b[1]) && IsLiteralBody(b[2..]))
  }

  /** Scans a literal body from index j; the end (one past the closing quote)
      of the match, or `None` when the end of the text or a backslash before a
      line terminator comes first. Each character admits at most one of the
      two alternatives, so no backtracking can yield another match. */
  function BodyEnd(s: string, j: nat): (r: Option<nat>)
    requires j <= |s|
    ensures r.Some? ==> j < r.value <= |s|
    decreases |s| - j
  {
    if j == |s| then None
    else if s[j] == '"' then Some(j + 1)
    else if s[j] == '\\' then
      if j + 1 < |s| && !IsLineTerminator(s[j + 1]) then BodyEnd(s, j + 2) else None
    else BodyEnd(s, j + 1)
  }

  /** A backslash-escaped quote does not close a literal: the scan steps over
      the pair and goes on with the character after it. */
  lemma EscapedQuoteDoesNotClose(s: string, j: nat)
    requires j + 1 < |s| && s[j] == '\\' && s[j + 1] == '"'
    ensures BodyEnd(s, j) == BodyEnd(s, j + 2)
    ensures BodyEnd(s, j).Some? ==> BodyEnd(s, j).value > j + 2
  {
  }

  /** The end of the match attempted at position p, if any. */
  function LiteralEnd(s: string, p: nat): (r: Option<nat>)
    requires p <= |s|
    ensures r.Some? ==> p + 2 <= r.value <= |s|
  {
    if p < |s| && s[p] == '"' then BodyEnd(s, p + 1) else None
  }

  lemma {:induction false} BodyEndSound(s: string, j: nat)
    requires j <= |s| && BodyEnd(s, j).Some?
    ensures var e := BodyEnd(s, j).value; s[e - 1] == '"' && IsLiteralBody(s[j..e - 1])
    decreases |s| - j
  {
    var e := BodyEnd(s, j).value;
    if s[j] == '"' {
      assert s[j..e - 1] == [];
    } else if s[j] == '\\' {
      BodyEndSound(s, j + 2);
      assert s[j..e - 1][2..] == s[j + 2..e - 1];
    } else {
      BodyEndSound(s, j + 1);
      assert s[j..e - 1][1..] == s[j + 1..e - 1];
    }
  }

  lemma {:induction false} BodyEndComplete(s: string, j: nat, e: nat)
    requires j < e <= |s| && s[e - 1] == '"' && IsLiteralBody(s[j..e - 1])
    ensures BodyEnd(s, j) == Some(e)
    decreases e - j
  {
    var b := s[j..e - 1];
    if b == [] {
      assert s[j] == '"';
    } else if b[0] != '"' && b[0] != '\\' && IsLiteralBody(b[1..]) {
      assert b[1..] == s[j + 1..e - 1];
      BodyEndComplete(s, j + 1, e);
    } else {
      assert b[2..] == s[j + 2..e - 1];
      BodyEndComplete(s, j + 2, e);
    }
  }

  /** The scan finds a match at p exactly when some text starting at p is a
      string literal, and then it ends where that literal ends (so there is
      only one). */
  lemma LiteralEndIsRegexMatch(s: string, p: nat)
    requires p <= |s|
    ensures LiteralEnd(s, p).Some? ==> IsStringLiteral(s[p..LiteralEnd(s, p).value])
    ensures forall e :: p <= e <= |s| && IsStringLiteral(s[p..e]) ==> LiteralEnd(s, p) == Some(e)
  {
    if LiteralEnd(s, p).Some? {
      var e := LiteralEnd(s, p).value;
      BodyEndSound(s, p + 1);
      SliceInner(s, p, e);
    }
    forall e | p <= e <= |s| && IsStringLiteral(s[p..e]) ensures LiteralEnd(s, p) == Some(e) {
      SliceInner(s, p, e);
      BodyEndComplete(s, p + 1, e);
    }
  }

  lemma SliceInner(s: string, p: nat, e: nat)
    requires p + 2 <= e <= |s|
    ensures s[p..e][1..e - p - 1] == s[p + 1..e - 1]
    ensures s[p..e][0] == s[p] && s[p..e][e - p - 1] == s[e - 1]
  {
    var t := s[p..e];
    var inner := t[1..e - p - 1];
    assert |inner| == |s[p + 1..e - 1]|;
    forall i | 0 <= i < |inner| ensures inner[i] == s[p + 1..e - 1][i] {
      assert inner[i] == t[i + 1] == s[p + 1 + i];
    }
  }

  /** A piece of the input as the global replace sees it: a character the
      search stepped over, or a matched literal. */
  datatype Segment = Verbatim(c: char) | Literal(text: string)

  /** The global search from position p: try to match at p; on success take
      the literal and resume after it, otherwise keep s[p] and resume at p + 1. */
  function Segments(s: string, p: nat): (segs: seq<Segment>)
    requires p <= |s|
    decreases |s| - p
  {
    if p == |s| then []
    else
      match LiteralEnd(s, p)
      case Some(e) => [Literal(s[p..e])] + Segments(s, e)
      case None => [Verbatim(s[p])] + Segments(s, p + 1)
  }

  /** The input text a list of segments stands for. */
  function Original(segs: seq<Segment>): string {
    if segs == [] then []
    else
      (match segs[0] case Verbatim(c) => [c] case Literal(t) => t) + Original(segs[1..])
  }

  /** The replacement text: stepped-over characters are copied, literals are
      escaped. */
  function Render(segs: seq<Segment>): string {
    if segs == [] then []
    else
      (match segs[0] case Verbatim(c) => [c] case Literal(t) => EscapeLiteral(t)) + Render(segs[1..])
  }

  /** `rawText.replace(/"(?:[^"\\]|\\.)*"/g, EscapeLiteral)` */
  function Sanitize(s: string): string {
    Render(Segments(s, 0))
  }

  /** The segments partition the input, in order. */
  lemma {:induction false} SegmentsCoverInput(s: string, p: nat)
    requires p <= |s|
    ensures Original(Segments(s, p)) == s[p..]
    decreases |s| - p
  {
    if p < |s| {
      var next := NextStart(s, p);
      SegmentsHeadCover(s, p);
      SegmentsCoverInput(s, next);
      assert s[p..] == s[p..next] + s[next..];
    }
  }

  /** The first segment stands for the text up to where the search resumes. */
  lemma SegmentsHeadCover(s: string, p: nat)
    requires p < |s|
    ensures Original(Segments(s, p)) == s[p..NextStart(s, p)] + Original(Segments(s, NextStart(s, p)))
  {
    var segs := Segments(s, p);
    assert segs[1..] == Segments(s, NextStart(s, p));
    if LiteralEnd(s, p).None? {
      assert s[p..p + 1] == [s[p]];
    }
  }

  /** Every literal segment is a string literal of the reference grammar. */
  lemma {:induction false} SegmentsAreLiterals(s: string, p: nat)
    requires p <= |s|
    ensures forall k :: 0 <= k < |Segments(s, p)| && Segments(s, p)[k].Literal?
                        ==> IsStringLiteral(Segments(s, p)[k].text)
    decreases |s| - p
  {
    if p < |s| {
      LiteralEndIsRegexMatch(s, p);
      match LiteralEnd(s, p)
      case Some(e) => SegmentsAreLiterals(s, e);
      case None => SegmentsAreLiterals(s, p + 1);
    }
  }

  /** Where each segment sits: the k-th segment starts at offset q in the
      input. A stepped-over character sits where no string literal starts,
      and a literal segment is exactly the match the regular expression
      makes at q. With `SegmentsCoverInput`, the global search replaces every
      match it can reach and nothing else. */
  lemma {:induction false} SegmentsAreMatches(s: string, p: nat, k: nat)
    requires p <= |s| && k < |Segments(s, p)|
    ensures SegmentAt(s, p + |Original(Segments(s, p)[..k])|, Segments(s, p)[k])
    decreases |s| - p
  {
    if k == 0 {
      assert Segments(s, p)[..0] == [];
      SegmentsHeadIsMatch(s, p);
    } else {
      SegmentsOffsetStep(s, p, k);
      SegmentsAreMatches(s, NextStart(s, p), k - 1);
    }
  }

  /** Segment g is what the global search takes at offset q. */
  ghost predicate SegmentAt(s: string, q: nat, g: Segment) {
    && q < |s|
    && (g.Verbatim? ==> s[q] == g.c && forall e :: q <= e <= |s| ==> !IsStringLiteral(s[q..e]))
    && (g.Literal? ==> q + |g.text| <= |s| && s[q..q + |g.text|] == g.text
                       && LiteralEnd(s, q) == Some(q + |g.text|))
  }

  /** Where the search resumes after the segment it takes at p. */
  function NextStart(s: string, p: nat): (r: nat)
    requires p < |s|
    ensures p < r <= |s|
  {
    if LiteralEnd(s, p).Some? then LiteralEnd(s, p).value else p + 1
  }

  lemma SegmentsHeadIsMatch(s: string, p: nat)
    requires p < |s|
    ensures SegmentAt(s, p, Segments(s, p)[0])
  {
    LiteralEndIsRegexMatch(s, p);
  }

  lemma SegmentsOffsetStep(s: string, p: nat, k: nat)
    requires p < |s| && 0 < k < |Segments(s, p)|
    ensures k - 1 < |Segments(s, NextStart(s, p))|
    ensures Segments(s, p)[k] == Segments(s, NextStart(s, p))[k - 1]
    ensures p + |Original(Segments(s, p)[..k])|
            == NextStart(s, p) + |Original(Segments(s, NextStart(s, p))[..k - 1])|
  {
    var segs := Segments(s, p);
    var next := NextStart(s, p);
    assert segs[1..] == Segments(s, next);
    assert segs[..k][0] == segs[0];
    assert segs[..k][1..] == segs[1..][..k - 1];
  }

  // ---------------------------------------------------------------------
  // The callback applied to each match
  // ---------------------------------------------------------------------

  /** `s.replace(/c/g, rep)` for a single character c. */
  function ReplaceChar(s: string, c: char, rep: string): string {
    if s == [] then [] else (if s[0] == c then rep else [s[0]]) + ReplaceChar(s[1..], c, rep)
  }

  /** The filter's test: code point at least 32, or LF, CR or TAB. */
  predicate Kept(c: char) {
    c as int >= 32 || c == '\n' || c == '\r' || c == '\t'
  }

  /** `.split('').filter(Kept).join('')` */
  function KeepPrintable(s: string): string {
    if s == [] then [] else (if Kept(s[0]) then [s[0]] else []) + KeepPrintable(s[1..])
  }

  predicate NoControl(s: string) {
    forall i :: 0 <= i < |s| ==> s[i] as int >= 32
  }

  /** The callback on one matched literal, written as the source chains it. */
  function EscapeLiteral(m: string): string {
    KeepPrintable(ReplaceChar(ReplaceChar(ReplaceChar(m, '\n', "\\n"), '\r', "\\r"), '\t', "\\t"))
  }

  /** Independent per-character reference: each character of the literal is
      rewritten on its own. */
  function EscapeChar(c: char): string {
    if c == '\n' then "\\n"
    else if c == '\r' then "\\r"
    else if c == '\t' then "\\t"
    else if c as int < 32 then ""
    else [c]
  }

  function EscapeEach(m: string): string {
    if m == [] then [] else EscapeChar(m[0]) + EscapeEach(m[1..])
  }

  lemma {:induction false} EscapeLiteralPerChar(m: string)
    ensures EscapeLiteral(m) == EscapeEach(m)
  {
    if m != [] {
      EscapeLiteralPerChar(m[1..]);
      assert m == [m[0]] + m[1..];
      EscapeLiteralAppend([m[0]], m[1..]);
      EscapeLiteralOfChar(m[0]);
    }
  }

  /** The callback works on each part of its input separately. */
  lemma EscapeLiteralAppend(a: string, b: string)
    ensures EscapeLiteral(a + b) == EscapeLiteral(a) + EscapeLiteral(b)
  {
    ReplaceCharAppend(a, b, '\n', "\\n");
    var a1, b1 := ReplaceChar(a, '\n', "\\n"), ReplaceChar(b, '\n', "\\n");
    ReplaceCharAppend(a1, b1, '\r', "\\r");
    var a2, b2 := ReplaceChar(a1, '\r', "\\r"), ReplaceChar(b1, '\r', "\\r");
    ReplaceCharAppend(a2, b2, '\t', "\\t");
    KeepPrintableAppend(ReplaceChar(a2, '\t', "\\t"), ReplaceChar(b2, '\t', "\\t"));
  }

  lemma EscapeLiteralOfChar(c: char)
    ensures EscapeLiteral([c]) == EscapeChar(c)
  {
    assert [c][1..] == [];
    var r1 := ReplaceChar([c], '\n', "\\n");
    assert r1 == (if c == '\n' then "\\n" else [c]) + ReplaceChar([], '\n', "\\n");
    if c == '\n' {
      assert r1 == "\\n" && r1[0] == '\\' && r1[1] == 'n';
      ReplaceCharAbsent(r1, '\r', "\\r");
      ReplaceCharAbsent(r1, '\t', "\\t");
      KeepPrintableAllKept(r1);
    } else {
      var r2 := ReplaceChar(r1, '\r', "\\r");
      assert r1 == [c];
      assert r2 == (if c == '\r' then "\\r" else [c]) + ReplaceChar([], '\r', "\\r");
      if c == '\r' {
        assert r2 == "\\r" && r2[0] == '\\' && r2[1] == 'r';
        ReplaceCharAbsent(r2, '\t', "\\t");
        KeepPrintableAllKept(r2);
      } else {
        var r3 := ReplaceChar(r2, '\t', "\\t");
        assert r2 == [c];
        assert r3 == (if c == '\t' then "\\t" else [c]) + ReplaceChar([], '\t', "\\t");
        if c == '\t' {
          assert r3 == "\\t" && r3[0] == '\\' && r3[1] == 't';
          KeepPrintableAllKept(r3);
        } else {
          assert r3 == [c];
          assert KeepPrintable(r3) == (if Kept(c) then [c] else []) + KeepPrintable([]);
        }
      }
    }
  }

  lemma {:induction false} ReplaceCharAbsent(s: string, c: char, rep: string)
    requires forall i :: 0 <= i < |s| ==> s[i] != c
    ensures ReplaceChar(s, c, rep) == s
  {
    if s != [] {
      ReplaceCharAbsent(s[1..], c, rep);
      assert s == [s[0]] + s[1..];
    }
  }

  lemma {:induction false} KeepPrintableAllKept(s: string)
    requires forall i :: 0 <= i < |s| ==> Kept(s[i])
    ensures KeepPrintable(s) == s
  {
    if s != [] {
      KeepPrintableAllKept(s[1..]);
      assert s == [s[0]] + s[1..];
    }
  }

  lemma {:induction false} ReplaceCharAppend(a: string, b: string, c: char, rep: string)
    ensures ReplaceChar(a + b, c, rep) == ReplaceChar(a, c, rep) + ReplaceChar(b, c, rep)
  {
    if a != [] {
      assert (a + b)[1..] == a[1..] + b;
      ReplaceCharAppend(a[1..], b, c, rep);
    } else {
      assert a + b == b;
    }
  }

  lemma {:induction false} KeepPrintableAppend(a: string, b: string)
    ensures KeepPrintable(a + b) == KeepPrintable(a) + KeepPrintable(b)
  {
    if a != [] {
      assert (a + b)[1..] == a[1..] + b;
      KeepPrintableAppend(a[1..], b);
    } else {
      assert a + b == b;
    }
  }

  /** No character below 32 survives the callback. */
  lemma {:induction false} EscapeLiteralHasNoControl(m: string)
    ensures NoControl(EscapeLiteral(m))
  {
    EscapeLiteralPerChar(m);
    EscapeEachHasNoControl(m);
  }

  lemma {:induction false} EscapeEachHasNoControl(m: string)
    ensures NoControl(EscapeEach(m))
  {
    if m != [] {
      EscapeEachHasNoControl(m[1..]);
    }
  }

  /** A literal without control characters is returned as it was. */
  lemma {:induction false} EscapeLiteralKeepsClean(m: string)
    requires NoControl(m)
    ensures EscapeLiteral(m) == m
  {
    EscapeLiteralPerChar(m);
    EscapeEachKeepsClean(m);
  }

  lemma {:induction false} EscapeEachKeepsClean(m: string)
    requires NoControl(m)
    ensures EscapeEach(m) == m
  {
    if m != [] {
      EscapeEachKeepsClean(m[1..]);
      assert m == [m[0]] + m[1..];
    }
  }

  /** The output is the input with each literal replaced by its escaped form:
      no literal of the output has a control character, and text between
      literals is copied unchanged. */
  lemma {:induction false} SanitizeEscapesOnlyLiterals(s: string, p: nat)
    requires p <= |s|
    ensures forall k :: 0 <= k < |Segments(s, p)| && Segments(s, p)[k].Literal?
                        ==> NoControl(EscapeLiteral(Segments(s, p)[k].text))
  {
    forall k | 0 <= k < |Segments(s, p)| && Segments(s, p)[k].Literal?
      ensures NoControl(EscapeLiteral(Segments(s, p)[k].text))
    {
      EscapeLiteralHasNoControl(Segments(s, p)[k].text);
    }
  }

  /** Input whose literals contain no control characters is returned
      unchanged. */
  lemma {:induction false} SanitizeKeepsCleanInput(s: string, p: nat)
    requires p <= |s|
    requires forall k :: 0 <= k < |Segments(s, p)| && Segments(s, p)[k].Literal?
                         ==> NoControl(Segments(s, p)[k].text)
    ensures Render(Segments(s, p)) == s[p..]
    decreases |s| - p
  {
    SegmentsCoverInput(s, p);
    RenderOfCleanIsOriginal(Segments(s, p));
  }

  lemma {:induction false} RenderOfCleanIsOriginal(segs: seq<Segment>)
    requires forall k :: 0 <= k < |segs| && segs[k].Literal? ==> NoControl(segs[k].text)
    ensures Render(segs) == Original(segs)
  {
    if segs != [] {
      RenderOfCleanIsOriginal(segs[1..]);
      if segs[0].Literal? {
        EscapeLiteralKeepsClean(segs[0].text);
      }
    }
  }

  /** Text with no control character anywhere passes the sanitizer untouched. */
  lemma SanitizeKeepsPrintableText(s: string)
    requires NoControl(s)
    ensures Sanitize(s) == s
  {
    LiteralsOfPrintableText(s, 0);
    SanitizeKeepsCleanInput(s, 0);
  }

  lemma {:induction false} LiteralsOfPrintableText(s: string, p: nat)
    requires p <= |s| && NoControl(s)
    ensures forall k :: 0 <= k < |Segments(s, p)| && Segments(s, p)[k].Literal?
                        ==> NoControl(Segments(s, p)[k].text)
    decreases |s| - p
  {
    if p < |s| {
      match LiteralEnd(s, p)
      case Some(e) => LiteralsOfPrintableText(s, e);
      case None => LiteralsOfPrintableText(s, p + 1);
    }
  }

  /** Outside string literals nothing is touched: text without a double
      quote comes back unchanged, control characters included. */
  lemma SanitizeLeavesUnquotedText(s: string)
    requires forall i :: 0 <= i < |s| ==> s[i] != '"'
    ensures Sanitize(s) == s
  {
    NoQuoteNoLiterals(s, 0);
    SanitizeKeepsCleanInput(s, 0);
  }

  lemma {:induction false} NoQuoteNoLiterals(s: string, p: nat)
    requires p <= |s| && forall i :: 0 <= i < |s| ==> s[i] != '"'
    ensures forall k :: 0 <= k < |Segments(s, p)| ==> Segments(s, p)[k].Verbatim?
    decreases |s| - p
  {
    if p < |s| {
      assert LiteralEnd(s, p).None?;
      NoQuoteNoLiterals(s, p + 1);
    }
  }

  /** Text that is one string literal as a whole is a single match: it comes
      back as the callback's rewrite of it, each character escaped on its own. */
  lemma SanitizeEscapesWholeLiteral(s: string)
    requires IsStringLiteral(s)
    ensures Sanitize(s) == EscapeEach(s)
  {
    assert s[0..|s|] == s;
    LiteralEndIsRegexMatch(s, 0);
    assert LiteralEnd(s, 0) == Some(|s|);
    assert Segments(s, |s|) == [];
    var segs := Segments(s, 0);
    assert segs == [Literal(s)];
    assert segs[1..] == [];
    assert Render(segs) == EscapeLiteral(s) + Render([]);
    EscapeLiteralPerChar(s);
  }

  /** A raw line feed inside a literal is written as the escape `\n`. */
  lemma SanitizeEscapesLineFeed()
    ensures Sanitize("\"a\nb\"") == "\"a\\nb\""
  {
    var s := "\"a\nb\"";
    assert IsLiteralBody("a\nb") by {
      assert "a\nb"[1..] == "\nb";
      assert "\nb"[1..] == "b";
      assert "b"[1..] == [];
    }
    assert s[1..|s| - 1] == "a\nb";
    SanitizeEscapesWholeLiteral(s);
    EscapeEachLineFeedExample();
  }

  lemma EscapeEachLineFeedExample()
    ensures EscapeEach("\"a\nb\"") == "\"a\\nb\""
  {
    EscapeEachStep("\"", []);
    EscapeEachStep("b\"", "\"");
    EscapeEachStep("\nb\"", "b\"");
    EscapeEachStep("a\nb\"", "\nb\"");
    EscapeEachStep("\"a\nb\"", "a\nb\"");
    assert EscapeEach("\"") == "\"";
    assert EscapeEach("b\"") == "b\"";
    assert EscapeChar('\n') == "\\n";
    assert EscapeEach("\nb\"") == "\\nb\"";
    assert EscapeEach("a\nb\"") == "a\\nb\"";
  }

  lemma EscapeEachStep(m: string, rest: string)
    requires m != [] && m[1..] == rest
    ensures EscapeEach(m) == EscapeChar(m[0]) + EscapeEach(rest)
  {
  }
}
