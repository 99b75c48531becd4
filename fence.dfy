/** Locating the JSON payload in a model reply: the first match of the
    regular expression  ```json\s*(.*?)\s*```  (searched with DOTALL), whose
    group is the payload; a reply with no match is taken whole. */
module Fence {
  import opened Wrappers
  import opened Text

  const Opener: string := "```json"
  const Closer: string := "```"

  /** Every character of `s[i..j]` is whitespace. */
  ghost predicate SpacesBetween(s: string, i: int, j: int)
    requires 0 <= i <= j <= |s|
  {
    forall m :: i <= m < j ==> IsSpace(s[m])
  }

  /** One way for the expression to match `s`: the opener at `p`, the first
      `\s*` on `s[p + 7..a]`, the group `(.*?)` on `s[a..b]`, the second `\s*`
      on `s[b..c]` and the closer at `c`. */
  ghost predicate IsMatch(s: string, p: int, a: int, b: int, c: int) {
    && 0 <= p && p + |Opener| <= a <= b <= c
    && OccursAt(s, Opener, p)
    && OccursAt(s, Closer, c)
    && SpacesBetween(s, p + |Opener|, a)
    && SpacesBetween(s, b, c)
  }

  /** Where a whitespace run starting at `i` ends, not going past `j`. */
  function SpaceEnd(s: string, i: nat, j: nat): (k: nat)
    requires i <= j <= |s|
    decreases j - i
    ensures i <= k <= j && SpacesBetween(s, i, k) && (k < j ==> !IsSpace(s[k]))
  {
    if i < j && IsSpace(s[i]) then SpaceEnd(s, i + 1, j) else i
  }

  /** Where a whitespace run ending at `j` starts, not going before `i`. */
  function SpaceStart(s: string, i: nat, j: nat): (k: nat)
    requires i <= j <= |s|
    decreases j - i
    ensures i <= k <= j && SpacesBetween(s, k, j) && (i < k ==> !IsSpace(s[k - 1]))
  {
    if i < j && IsSpace(s[j - 1]) then SpaceStart(s, i, j - 1) else j
  }

  /** The span the expression selects, as (opener, group start, group end,
      closer) positions: the first opener, the first closer after it, and
      the text between them without its leading and trailing whitespace. */
  function FenceMatch(s: string): (r: Option<(nat, nat, nat, nat)>)
    ensures r.Some? ==> IsMatch(s, r.value.0, r.value.1, r.value.2, r.value.3)
  {
    match Find(s, Opener, 0)
    case None => None
    case Some(p) =>
      match Find(s, Closer, p + |Opener|)
      case None => None
      case Some(q) =>
        var a := SpaceEnd(s, p + |Opener|, q);
        Some((p, a, SpaceStart(s, a, q), q))
  }

  /** The text handed to the JSON parser: the group of the selected match,
      which is the text between the selected opener and closer with its
      surrounding whitespace stripped, or the whole reply when the
      expression does not match. */
  function ExtractJson(reply: string): (r: string)
    ensures FenceMatch(reply).Some? ==>
      r == Strip(reply[FenceMatch(reply).value.0 + |Opener|..FenceMatch(reply).value.3])
    ensures FenceMatch(reply).None? ==> r == reply
  {
    match FenceMatch(reply)
    case Some((p, a, b, c)) =>
      StripIsSpan(reply, p + |Opener|, c);
      reply[a..b]
    case None => reply
  }

  /** A reply the expression does not match is passed on whole, and the
      selection is empty exactly when no match exists (no opener, or no
      closer after the first opener). */
  lemma NoMatchWholeReply(reply: string)
    ensures FenceMatch(reply).None? <==> forall p, a, b, c :: !IsMatch(reply, p, a, b, c)
    ensures FenceMatch(reply).None? ==> ExtractJson(reply) == reply
  {
    match Find(reply, Opener, 0)
    case None =>
    case Some(p0) =>
      if Find(reply, Closer, p0 + |Opener|).None? {
        assert forall p, a, b, c :: IsMatch(reply, p, a, b, c) ==> p >= p0 && c >= p0 + |Opener|;
      }
  }

  /** The selected opener is the leftmost one at which the expression
      matches, as `re.search` scans. */
  lemma SelectedIsLeftmost(s: string)
    requires FenceMatch(s).Some?
    ensures forall p', a', b', c' :: IsMatch(s, p', a', b', c') ==> FenceMatch(s).value.0 <= p'
  {
  }

  /** For that opener the first `\s*` takes the longest whitespace run it can. */
  lemma SelectedLeadingSpaceIsGreedy(s: string)
    requires FenceMatch(s).Some?
    ensures var (p, a, _, _) := FenceMatch(s).value;
      forall a', b', c' :: IsMatch(s, p, a', b', c') ==> a' <= a
  {
    var (p, a, b, q) := FenceMatch(s).value;
    assert a < |s| && !IsSpace(s[a]) by {
      if a == q { assert s[q] == Closer[0]; }
    }
  }

  /** For that opener and run the lazy group is as short as it can be: it
      stops where the whitespace before the first closer begins. */
  lemma SelectedGroupIsLazy(s: string)
    requires FenceMatch(s).Some?
    ensures var (p, a, b, _) := FenceMatch(s).value;
      forall b', c' :: IsMatch(s, p, a, b', c') ==> b <= b'
  {
    var (p, a, b, q) := FenceMatch(s).value;
    assert forall c': nat :: p + |Opener| <= c' < q ==> !OccursAt(s, Closer, c');
    assert b == a || !IsSpace(s[b - 1]);
  }

  /** For that group the second `\s*` runs up to the first closer. */
  lemma SelectedTrailingSpaceIsGreedy(s: string)
    requires FenceMatch(s).Some?
    ensures var (p, a, b, c) := FenceMatch(s).value;
      forall c' :: IsMatch(s, p, a, b, c') ==> c' <= c
  {
    var (p, a, b, q) := FenceMatch(s).value;
    assert s[q] == Closer[0];
  }

  /** A reply holding a fenced block yields exactly the block's interior,
      stripped, whatever prose surrounds it, provided the prose before it
      opens no earlier block and the interior holds no closer. */
  lemma FencedBlockInProse(pre: string, body: string, post: string)
    requires !Contains(pre + Opener[..6], Opener)
    requires !Contains(body + Closer[..2], Closer)
    ensures ExtractJson(pre + Opener + body + Closer + post) == Strip(body)
  {
    FirstOpener(pre, body, post);
    FirstCloser(pre, body, post);
    Interior(pre, body, post);
    ExtractBetween(pre + Opener + body + Closer + post, |pre|, |pre| + |Opener| + |body|);
  }

  /** Given where the first opener and the first closer after it lie, the
      payload is the stripped text between them. */
  lemma ExtractBetween(s: string, p: nat, q: nat)
    requires Find(s, Opener, 0) == Some(p)
    requires Find(s, Closer, p + |Opener|) == Some(q)
    ensures p + |Opener| <= q <= |s|
    ensures ExtractJson(s) == Strip(s[p + |Opener|..q])
  {
  }

  /** The text between the opener and the closer is the body. */
  lemma Interior(pre: string, body: string, post: string)
    ensures (pre + Opener + body + Closer + post)[|pre| + |Opener|..|pre| + |Opener| + |body|] == body
  {
  }

  /** The opener right after `pre` is the first one when `pre` starts none. */
  lemma FirstOpener(pre: string, body: string, post: string)
    requires !Contains(pre + Opener[..6], Opener)
    ensures Find(pre + Opener + body + Closer + post, Opener, 0) == Some(|pre|)
  {
    assert Opener[..|Opener| - 1] == Opener[..6];
    FirstAfter([], pre, Opener, body + Closer + post, 0);
    assert [] + pre + Opener + (body + Closer + post) == pre + Opener + body + Closer + post;
  }

  /** The closer right after `body` is the first one after the opener when
      the body holds none. */
  lemma FirstCloser(pre: string, body: string, post: string)
    requires !Contains(body + Closer[..2], Closer)
    ensures Find(pre + Opener + body + Closer + post, Closer, |pre| + |Opener|) == Some(|pre| + |Opener| + |body|)
  {
    assert Closer[..|Closer| - 1] == Closer[..2];
    FirstAfter(pre + Opener, body, Closer, post, |pre| + |Opener|);
  }

  /** A pattern placed right after `mid` is the first one found from the
      start of `mid` when `mid`, extended by all but the pattern's last
      character, holds none. */
  lemma FirstAfter(head: string, mid: string, pat: string, tail: string, h: nat)
    requires h == |head| && |pat| > 0
    requires !Contains(mid + pat[..|pat| - 1], pat)
    ensures Find(head + mid + pat + tail, pat, h) == Some(h + |mid|)
  {
    var s := head + mid + pat + tail;
    var q := h + |mid|;
    var m := mid + pat[..|pat| - 1];
    assert OccursAt(s, pat, q) by { assert s[q..q + |pat|] == pat; }
    forall j: nat | h <= j < q ensures !OccursAt(s, pat, j) {
      var k: nat := j - h;
      assert m[k..k + |pat|] == s[j..j + |pat|] by {
        forall x | k <= x < k + |pat| ensures m[x] == s[h + x] {
          if x < |mid| {
            assert m[x] == mid[x];
          } else {
            assert m[x] == pat[x - |mid|];
          }
        }
      }
      assert !OccursAt(m, pat, k);
    }
  }

  /** A reply without the opener is passed to the parser unchanged. */
  lemma NoOpenerWholeReply(reply: string)
    requires !Contains(reply, Opener)
    ensures ExtractJson(reply) == reply
  {
    FindIffContains(reply, Opener);
  }

  /** The selected span, read back as Python's `str.strip` of the slice. */
  lemma StripIsSpan(s: string, i: nat, j: nat)
    requires i <= j <= |s|
    ensures var a := SpaceEnd(s, i, j);
      s[a..SpaceStart(s, a, j)] == Strip(s[i..j])
  {
    TrimStartIsSpan(s, i, j);
    TrimEndIsSpan(s, SpaceEnd(s, i, j), j);
  }

  lemma {:induction false} TrimStartIsSpan(s: string, i: nat, j: nat)
    requires i <= j <= |s|
    decreases j - i
    ensures TrimStart(s[i..j]) == s[SpaceEnd(s, i, j)..j]
  {
    if i < j && IsSpace(s[i]) {
      TrimStartIsSpan(s, i + 1, j);
      assert s[i..j][1..] == s[i + 1..j];
    }
  }

  lemma {:induction false} TrimEndIsSpan(s: string, i: nat, j: nat)
    requires i <= j <= |s|
    decreases j - i
    ensures TrimEnd(s[i..j]) == s[i..SpaceStart(s, i, j)]
  {
    if i < j && IsSpace(s[j - 1]) {
      TrimEndIsSpan(s, i, j - 1);
      assert s[i..j][..j - 1 - i] == s[i..j - 1];
    }
  }
}
