/**
 * The model-id parsers of lib/utils.ts:287-305.
 *
 * `getSize` returns the capture of `/-(\d+(\.\d+)?[BK])-?/` and
 * `getQuantization` that of `/-(q[0-9]f[0-9]+(?:_[0-9])?)-/`, for the
 * leftmost match, or `undefined` when there is none. (The trailing `-?` of
 * the size pattern never changes whether or where it matches, nor the capture.)
 *
 * Each pattern is stated twice: as the language its capture belongs to
 * (`SizeMatch`, `QuantMatch`), and as a greedy scan at one start position
 * (`SizeEnd`, `QuantEnd`) that follows the regex engine's backtracking. The
 * scan at a position succeeds exactly when the pattern matches there, and a
 * match at a position is unique, so the leftmost scan is the regex's answer.
 */
module ModelIds {
  import opened Wrappers

  predicate IsDigit(c: char)
  {
    '0' <= c <= '9'
  }

  ghost predicate AllDigits(w: string)
  {
    forall k :: 0 <= k < |w| ==> IsDigit(w[k])
  }

  /** The length of the greedy `\d+` (or `[0-9]+`) run that starts at `i`. */
  function DigitRun(s: string, i: nat): (n: nat)
    requires i <= |s|
    ensures i + n <= |s|
    ensures forall k :: i <= k < i + n ==> IsDigit(s[k])
    ensures i + n == |s| || !IsDigit(s[i + n])
    decreases |s| - i
  {
    if i < |s| && IsDigit(s[i]) then 1 + DigitRun(s, i + 1) else 0
  }

  /** A run of digits that stops before a non-digit is the greedy run. */
  lemma {:induction false} DigitRunExact(s: string, i: nat, n: nat)
    requires i + n <= |s|
    requires forall k :: i <= k < i + n ==> IsDigit(s[k])
    requires i + n == |s| || !IsDigit(s[i + n])
    ensures DigitRun(s, i) == n
    decreases n
  {
    if n > 0 {
      DigitRunExact(s, i + 1, n - 1);
    }
  }

  /** The regex engine's leftmost search: the first start position at `p` or after where `at` matches. */
  function Leftmost(s: string, p: nat, at: (string, nat) -> Option<string>): (r: Option<string>)
    decreases |s| - p
  {
    if p >= |s| then None
    else if at(s, p).Some? then at(s, p)
    else Leftmost(s, p + 1, at)
  }

  lemma {:induction false} LeftmostSpec(s: string, p: nat, at: (string, nat) -> Option<string>)
    ensures Leftmost(s, p, at).None? <==> forall q :: p <= q < |s| ==> at(s, q).None?
    ensures Leftmost(s, p, at).Some? ==>
      exists q :: p <= q < |s| && at(s, q) == Leftmost(s, p, at) && forall q' :: p <= q' < q ==> at(s, q').None?
    decreases |s| - p
  {
    if p < |s| && at(s, p).None? {
      LeftmostSpec(s, p + 1, at);
      if Leftmost(s, p, at).Some? {
        var q :| p + 1 <= q < |s| && at(s, q) == Leftmost(s, p + 1, at)
                 && forall q' :: p + 1 <= q' < q ==> at(s, q').None?;
        assert forall q' :: p <= q' < q ==> at(s, q').None?;
      }
    }
  }

  /** Start positions where `at` finds nothing are passed over. */
  lemma {:induction false} LeftmostSkip(s: string, p: nat, q: nat, at: (string, nat) -> Option<string>)
    requires p <= q
    requires forall k :: p <= k < q ==> at(s, k).None?
    ensures Leftmost(s, p, at) == Leftmost(s, q, at)
    decreases q - p
  {
    if p < q {
      LeftmostSkip(s, p + 1, q, at);
    }
  }

  // ---------------------------------------------------------------------------
  // getSize: /-(\d+(\.\d+)?[BK])-?/
  // ---------------------------------------------------------------------------

  predicate IsSizeUnit(c: char)
  {
    c == 'B' || c == 'K'
  }

  /** `w` is in the language of `\d+(\.\d+)?`. */
  ghost predicate IsDecimal(w: string)
  {
    (|w| > 0 && AllDigits(w))
    || exists d :: 0 < d < |w| - 1 && w[d] == '.' && AllDigits(w[..d]) && AllDigits(w[d + 1..])
  }

  /** The size pattern matches at `p`, and its capture is `s[p + 1..e]`. */
  ghost predicate SizeMatch(s: string, p: int, e: int)
  {
    0 <= p && p + 2 < e <= |s| && s[p] == '-' && IsSizeUnit(s[e - 1]) && IsDecimal(s[p + 1..e - 1])
  }

  /** The end of the capture when the size pattern matches at `p`, by the engine's greedy steps. */
  function SizeEnd(s: string, p: nat): (e: Option<nat>)
    ensures e.Some? ==> p + 2 < e.value <= |s|
  {
    if p + 1 < |s| && s[p] == '-' then
      var n := DigitRun(s, p + 1);
      var q := p + 1 + n;
      if n == 0 || q == |s| then None
      else if IsSizeUnit(s[q]) then Some(q + 1)
      else if s[q] == '.' then
        var m := DigitRun(s, q + 1);
        if m > 0 && q + 1 + m < |s| && IsSizeUnit(s[q + 1 + m]) then Some(q + 2 + m) else None
      else None
    else None
  }

  function SizeCapture(s: string, p: nat): Option<string>
  {
    match SizeEnd(s, p)
    case Some(e) => Some(s[p + 1..e])
    case None => None
  }

  /** `getSize(model_id)`. */
  function GetSize(modelId: string): Option<string>
  {
    Leftmost(modelId, 0, SizeCapture)
  }

  /** Every character of a decimal is a digit or its one point. */
  lemma DecimalChar(w: string, k: int)
    requires IsDecimal(w) && 0 <= k < |w|
    ensures IsDigit(w[k]) || w[k] == '.'
  {
    if !(|w| > 0 && AllDigits(w)) {
      var d :| 0 < d < |w| - 1 && w[d] == '.' && AllDigits(w[..d]) && AllDigits(w[d + 1..]);
      if k < d {
        assert w[..d][k] == w[k];
      } else if k > d {
        assert w[d + 1..][k - d - 1] == w[k];
      }
    }
  }

  /** At one start position the size pattern has at most one match. */
  lemma SizeMatchUnique(s: string, p: int, e1: int, e2: int)
    requires SizeMatch(s, p, e1) && SizeMatch(s, p, e2)
    ensures e1 == e2
  {
    if e1 != e2 {
      var lo := if e1 < e2 then e1 else e2;
      var hi := if e1 < e2 then e2 else e1;
      var w := s[p + 1..hi - 1];
      assert w[lo - p - 2] == s[lo - 1];
      DecimalChar(w, lo - p - 2);
      assert false;
    }
  }

  /** The greedy scan at `p` finds exactly the match of the pattern at `p`. */
  lemma SizeEndCorrect(s: string, p: nat)
    ensures SizeEnd(s, p).Some? ==> SizeMatch(s, p, SizeEnd(s, p).value)
    ensures forall e :: SizeMatch(s, p, e) ==> SizeEnd(s, p) == Some(e)
  {
    if SizeEnd(s, p).Some? {
      var e := SizeEnd(s, p).value;
      var n := DigitRun(s, p + 1);
      var q := p + 1 + n;
      var w := s[p + 1..e - 1];
      if IsSizeUnit(s[q]) {
        assert w == s[p + 1..q];
      } else {
        var m := DigitRun(s, q + 1);
        assert w[n] == '.' && w[..n] == s[p + 1..q] && w[n + 1..] == s[q + 1..q + 1 + m];
      }
    }
    forall e | SizeMatch(s, p, e) ensures SizeEnd(s, p) == Some(e) {
      SizeMatchFound(s, p, e);
    }
  }

  /** The characters of an all-digit slice of `s` are digits of `s`. */
  lemma DigitsIn(s: string, i: nat, w: string)
    requires i + |w| <= |s| && s[i..i + |w|] == w && AllDigits(w)
    ensures forall k :: i <= k < i + |w| ==> IsDigit(s[k])
  {
    forall k | i <= k < i + |w| ensures IsDigit(s[k]) {
      assert s[k] == w[k - i];
    }
  }

  lemma SizeMatchFound(s: string, p: nat, e: int)
    requires SizeMatch(s, p, e)
    ensures SizeEnd(s, p) == Some(e)
  {
    var w := s[p + 1..e - 1];
    if |w| > 0 && AllDigits(w) {
      DigitsIn(s, p + 1, w);
      DigitRunExact(s, p + 1, |w|);
    } else {
      var d :| 0 < d < |w| - 1 && w[d] == '.' && AllDigits(w[..d]) && AllDigits(w[d + 1..]);
      FractionDigits(s, p, e, w, d);
      FractionFound(s, p, p + 1 + d, e);
    }
  }

  /** A number `w` with its point at `d`, read at `p + 1` in `s`: digits, the point, digits. */
  lemma FractionDigits(s: string, p: nat, e: nat, w: string, d: nat)
    requires p + 2 < e <= |s| && w == s[p + 1..e - 1]
    requires 0 < d < |w| - 1 && w[d] == '.' && AllDigits(w[..d]) && AllDigits(w[d + 1..])
    ensures s[p + 1 + d] == '.'
    ensures forall k :: p + 1 <= k < p + 1 + d ==> IsDigit(s[k])
    ensures forall k :: p + 2 + d <= k < e - 1 ==> IsDigit(s[k])
  {
    var q := p + 1 + d;
    assert s[q] == w[d];
    assert s[p + 1..q] == w[..d];
    DigitsIn(s, p + 1, w[..d]);
    assert s[q + 1..e - 1] == w[d + 1..];
    DigitsIn(s, q + 1, w[d + 1..]);
  }

  /** The size pattern with a fractional part, whose point is at `q`. */
  lemma FractionFound(s: string, p: nat, q: nat, e: nat)
    requires p + 1 < q && q + 2 < e <= |s|
    requires s[p] == '-' && s[q] == '.' && IsSizeUnit(s[e - 1])
    requires forall k :: p + 1 <= k < q ==> IsDigit(s[k])
    requires forall k :: q + 1 <= k < e - 1 ==> IsDigit(s[k])
    ensures SizeEnd(s, p) == Some(e)
  {
    DigitRunExact(s, p + 1, q - p - 1);
    DigitRunExact(s, q + 1, e - q - 2);
    DecimalFound(s, p, q, e);
  }

  /** The scan for a size with a fractional part, whose point is at `q`. */
  lemma DecimalFound(s: string, p: nat, q: nat, e: nat)
    requires p + 1 < q && q + 2 < e <= |s|
    requires s[p] == '-' && s[q] == '.' && IsSizeUnit(s[e - 1])
    requires DigitRun(s, p + 1) == q - p - 1 && DigitRun(s, q + 1) == e - q - 2
    ensures SizeEnd(s, p) == Some(e)
  {
  }

  /** The size capture at `p` is there exactly when the pattern matches at `p`. */
  lemma SizeCaptureMeaning(s: string, p: nat)
    ensures SizeCapture(s, p).None? <==> forall e :: !SizeMatch(s, p, e)
    ensures SizeCapture(s, p).Some? ==>
      SizeMatch(s, p, SizeEnd(s, p).value) && SizeCapture(s, p).value == s[p + 1..SizeEnd(s, p).value]
  {
    SizeEndCorrect(s, p);
  }

  /**
   * `getSize` returns the capture of the leftmost match of the size pattern,
   * and `undefined` exactly when the pattern matches nowhere.
   */
  lemma GetSizeSpec(s: string)
    ensures GetSize(s).None? <==> forall p, e :: !SizeMatch(s, p, e)
    ensures GetSize(s).Some? ==>
      exists p, e :: SizeMatch(s, p, e) && GetSize(s).value == s[p + 1..e]
                     && forall p', e' :: p' < p ==> !SizeMatch(s, p', e')
  {
    if GetSize(s).Some? {
      SizeLeftmost(s);
    } else {
      SizeNowhere(s);
    }
  }

  lemma SizeLeftmost(s: string)
    requires GetSize(s).Some?
    ensures exists p, e :: SizeMatch(s, p, e) && GetSize(s).value == s[p + 1..e]
                           && forall p', e' :: p' < p ==> !SizeMatch(s, p', e')
  {
    LeftmostSpec(s, 0, SizeCapture);
    var p :| 0 <= p < |s| && SizeCapture(s, p) == GetSize(s)
             && forall q' :: 0 <= q' < p ==> SizeCapture(s, q').None?;
    SizeCaptureMeaning(s, p);
    var e := SizeEnd(s, p).value;
    forall p', e' | p' < p ensures !SizeMatch(s, p', e') {
      if 0 <= p' {
        SizeCaptureMeaning(s, p');
      }
    }
    assert SizeMatch(s, p, e) && GetSize(s).value == s[p + 1..e];
  }

  lemma SizeNowhere(s: string)
    requires GetSize(s).None?
    ensures forall p, e :: !SizeMatch(s, p, e)
  {
    LeftmostSpec(s, 0, SizeCapture);
    forall p, e ensures !SizeMatch(s, p, e) {
      if 0 <= p < |s| {
        SizeCaptureMeaning(s, p);
      }
    }
  }


  // ---------------------------------------------------------------------------
  // getQuantization: /-(q[0-9]f[0-9]+(?:_[0-9])?)-/
  // ---------------------------------------------------------------------------

  /** `w` is in the language of `q[0-9]f[0-9]+(?:_[0-9])?`. */
  ghost predicate IsQuantization(w: string)
  {
    |w| >= 4 && w[0] == 'q' && IsDigit(w[1]) && w[2] == 'f'
    && var tail := w[3..];
       ((|tail| > 0 && AllDigits(tail))
        || (|tail| >= 3 && tail[|tail| - 2] == '_' && IsDigit(tail[|tail| - 1]) && AllDigits(tail[..|tail| - 2])))
  }

  /** The quantization pattern matches at `p`, its capture is `s[p + 1..e]`, and `s[e]` is the closing `-`. */
  ghost predicate QuantMatch(s: string, p: int, e: int)
  {
    0 <= p && p + 1 <= e < |s| && s[p] == '-' && s[e] == '-' && IsQuantization(s[p + 1..e])
  }

  /** The end of the capture when the quantization pattern matches at `p`, by the engine's greedy steps. */
  function QuantEnd(s: string, p: nat): (e: Option<nat>)
    ensures e.Some? ==> p + 4 < e.value < |s|
  {
    if p + 4 <= |s| && s[p] == '-' && s[p + 1] == 'q' && IsDigit(s[p + 2]) && s[p + 3] == 'f' then
      var n := DigitRun(s, p + 4);
      var q := p + 4 + n;
      if n == 0 then None
      else if q + 2 < |s| && s[q] == '_' && IsDigit(s[q + 1]) && s[q + 2] == '-' then Some(q + 2)
      else if q < |s| && s[q] == '-' then Some(q)
      else None
    else None
  }

  function QuantCapture(s: string, p: nat): Option<string>
  {
    match QuantEnd(s, p)
    case Some(e) => Some(s[p + 1..e])
    case None => None
  }

  /** `getQuantization(model_id)`. */
  function GetQuantization(modelId: string): Option<string>
  {
    Leftmost(modelId, 0, QuantCapture)
  }

  /** No character of a quantization is a `-`. */
  lemma QuantChar(w: string, k: int)
    requires IsQuantization(w) && 0 <= k < |w|
    ensures w[k] != '-'
  {
    if k >= 3 {
      var tail := w[3..];
      assert tail[k - 3] == w[k];
      if !(|tail| > 0 && AllDigits(tail)) && k - 3 < |tail| - 2 {
        assert tail[..|tail| - 2][k - 3] == tail[k - 3];
      }
    }
  }

  /** At one start position the quantization pattern has at most one match. */
  lemma QuantMatchUnique(s: string, p: int, e1: int, e2: int)
    requires QuantMatch(s, p, e1) && QuantMatch(s, p, e2)
    ensures e1 == e2
  {
    if e1 != e2 {
      var lo := if e1 < e2 then e1 else e2;
      var hi := if e1 < e2 then e2 else e1;
      var w := s[p + 1..hi];
      assert w[lo - p - 1] == s[lo];
      QuantChar(w, lo - p - 1);
      assert false;
    }
  }

  lemma QuantEndCorrect(s: string, p: nat)
    ensures QuantEnd(s, p).Some? ==> QuantMatch(s, p, QuantEnd(s, p).value)
    ensures forall e :: QuantMatch(s, p, e) ==> QuantEnd(s, p) == Some(e)
  {
    if QuantEnd(s, p).Some? {
      var e := QuantEnd(s, p).value;
      var n := DigitRun(s, p + 4);
      var w := s[p + 1..e];
      var tail := w[3..];
      assert tail[..n] == s[p + 4..p + 4 + n];
    }
    forall e | QuantMatch(s, p, e) ensures QuantEnd(s, p) == Some(e) {
      QuantMatchFound(s, p, e);
    }
  }

  lemma QuantMatchFound(s: string, p: nat, e: int)
    requires QuantMatch(s, p, e)
    ensures QuantEnd(s, p) == Some(e)
  {
    var w := s[p + 1..e];
    var tail := w[3..];
    assert tail == s[p + 4..e];
    if |tail| > 0 && AllDigits(tail) {
      forall k | p + 4 <= k < e ensures IsDigit(s[k]) {
        assert s[k] == tail[k - p - 4];
      }
      DigitRunExact(s, p + 4, |tail|);
    } else {
      var n := |tail| - 2;
      forall k | p + 4 <= k < p + 4 + n ensures IsDigit(s[k]) {
        assert s[k] == tail[..n][k - p - 4];
      }
      assert s[p + 4 + n] == tail[n];
      DigitRunExact(s, p + 4, n);
    }
  }

  /** The quantization capture at `p` is there exactly when the pattern matches at `p`. */
  lemma QuantCaptureMeaning(s: string, p: nat)
    ensures QuantCapture(s, p).None? <==> forall e :: !QuantMatch(s, p, e)
    ensures QuantCapture(s, p).Some? ==>
      QuantMatch(s, p, QuantEnd(s, p).value) && QuantCapture(s, p).value == s[p + 1..QuantEnd(s, p).value]
  {
    QuantEndCorrect(s, p);
  }

  /**
   * `getQuantization` returns the capture of the leftmost match of the
   * quantization pattern, and `undefined` exactly when it matches nowhere.
   */
  lemma GetQuantizationSpec(s: string)
    ensures GetQuantization(s).None? <==> forall p, e :: !QuantMatch(s, p, e)
    ensures GetQuantization(s).Some? ==>
      exists p, e :: QuantMatch(s, p, e) && GetQuantization(s).value == s[p + 1..e]
                     && forall p', e' :: p' < p ==> !QuantMatch(s, p', e')
  {
    if GetQuantization(s).Some? {
      QuantLeftmost(s);
    } else {
      QuantNowhere(s);
    }
  }

  lemma QuantLeftmost(s: string)
    requires GetQuantization(s).Some?
    ensures exists p, e :: QuantMatch(s, p, e) && GetQuantization(s).value == s[p + 1..e]
                           && forall p', e' :: p' < p ==> !QuantMatch(s, p', e')
  {
    LeftmostSpec(s, 0, QuantCapture);
    var p :| 0 <= p < |s| && QuantCapture(s, p) == GetQuantization(s)
             && forall q' :: 0 <= q' < p ==> QuantCapture(s, q').None?;
    QuantCaptureMeaning(s, p);
    var e := QuantEnd(s, p).value;
    forall p', e' | p' < p ensures !QuantMatch(s, p', e') {
      if 0 <= p' {
        QuantCaptureMeaning(s, p');
      }
    }
    assert QuantMatch(s, p, e) && GetQuantization(s).value == s[p + 1..e];
  }

  lemma QuantNowhere(s: string)
    requires GetQuantization(s).None?
    ensures forall p, e :: !QuantMatch(s, p, e)
  {
    LeftmostSpec(s, 0, QuantCapture);
    forall p, e ensures !QuantMatch(s, p, e) {
      if 0 <= p < |s| {
        QuantCaptureMeaning(s, p);
      }
    }
  }
}
