/**
 * `generateUUID` (lib/utils.ts:46-52): every `x` and `y` of a version-4
 * template is replaced, left to right, by a random hexadecimal digit; a `y`
 * keeps only the two low bits of its draw and sets the high bit, giving the
 * variant digits 8-b of section 4.4 of RFC 4122.
 *
 * `Math.random()` is replaced by the sequence of draws: `(Math.random() * 16) | 0`
 * is a 4-bit value, so each draw is a `bv4`, one per placeholder.
 */
module Uuid {
  import opened Sequences

  const Template: string := "xxxxxxxx-xxxx-4xxx-yxxx-xxxxxxxxxxxx"

  predicate IsPlaceholder(c: char)
  {
    c == 'x' || c == 'y'
  }

  /** The placeholders of a template, in order: the matches of `/[xy]/g`. */
  function Placeholders(t: string): string
  {
    Filter(t, (c: char) => IsPlaceholder(c))
  }

  /** `v.toString(16)` for a 4-bit value: one lower-case hexadecimal digit. */
  function HexDigit(v: bv4): (c: char)
    ensures IsLowerHex(c)
  {
    if v < 10 then ('0' as int + v as int) as char else ('a' as int + v as int - 10) as char
  }

  predicate IsLowerHex(c: char)
  {
    '0' <= c <= '9' || 'a' <= c <= 'f'
  }

  /** The digit a `y` becomes: `(r & 0x3) | 0x8`. */
  function VariantDigit(r: bv4): (v: bv4)
    ensures 8 <= v <= 11
  {
    (r & 0x3) | 0x8
  }

  /** The replacement callback, applied to each placeholder with the next draw. */
  function Fill(t: string, draws: seq<bv4>): (r: string)
    requires |draws| == |Placeholders(t)|
    ensures |r| == |t|
    ensures forall i :: 0 <= i < |t| && !IsPlaceholder(t[i]) ==> r[i] == t[i]
    ensures forall i :: 0 <= i < |t| && t[i] == 'x' ==> IsLowerHex(r[i])
    ensures forall i :: 0 <= i < |t| && t[i] == 'y' ==> r[i] in "89ab"
  {
    if t == [] then []
    else if t[0] == 'x' then [HexDigit(draws[0])] + Fill(t[1..], draws[1..])
    else if t[0] == 'y' then [HexDigit(VariantDigit(draws[0]))] + Fill(t[1..], draws[1..])
    else [t[0]] + Fill(t[1..], draws)
  }

  /** The template, cut where its placeholders stop and start. */
  lemma TemplatePieces()
    ensures Template == "xxxxxxxx" + ("-" + ("xxxx" + ("-4" + ("xxx" + ("-" + ("yxxx" + ("-" + "xxxxxxxxxxxx")))))))
  {
  }

  lemma PlaceholdersAppend(a: string, b: string)
    ensures Placeholders(a + b) == Placeholders(a) + Placeholders(b)
  {
    FilterAppend(a, b, (c: char) => IsPlaceholder(c));
  }

  lemma AllPlaceholders(s: string)
    requires forall i :: 0 <= i < |s| ==> IsPlaceholder(s[i])
    ensures Placeholders(s) == s
  {
    FilterKeepsAll(s, (c: char) => IsPlaceholder(c));
  }

  lemma NoPlaceholders(s: string)
    requires forall i :: 0 <= i < |s| ==> !IsPlaceholder(s[i])
    ensures Placeholders(s) == []
  {
    FilterNoneKept(s, (c: char) => IsPlaceholder(c));
  }

  /** Placeholders of `sep + xs` where `sep` has none and `xs` has only placeholders. */
  lemma PlaceholdersAfter(sep: string, xs: string, rest: string)
    requires forall i :: 0 <= i < |sep| ==> !IsPlaceholder(sep[i])
    requires forall i :: 0 <= i < |xs| ==> IsPlaceholder(xs[i])
    ensures Placeholders(sep + xs + rest) == xs + Placeholders(rest)
  {
    PlaceholdersAppend(sep + xs, rest);
    PlaceholdersAppend(sep, xs);
    NoPlaceholders(sep);
    AllPlaceholders(xs);
  }

  lemma Tail5Placeholders()
    ensures Placeholders("-" + "xxxxxxxxxxxx") == "xxxxxxxxxxxx"
  {
    assert "-" + "xxxxxxxxxxxx" == "-" + "xxxxxxxxxxxx" + "";
    PlaceholdersAfter("-", "xxxxxxxxxxxx", "");
    NoPlaceholders("");
  }

  lemma Tail4Placeholders()
    ensures Placeholders("-" + ("yxxx" + ("-" + "xxxxxxxxxxxx"))) == "yxxx" + "xxxxxxxxxxxx"
  {
    var rest := "-" + "xxxxxxxxxxxx";
    assert "-" + ("yxxx" + rest) == "-" + "yxxx" + rest;
    PlaceholdersAfter("-", "yxxx", rest);
    Tail5Placeholders();
  }

  lemma Tail3Placeholders()
    ensures Placeholders("-4" + ("xxx" + ("-" + ("yxxx" + ("-" + "xxxxxxxxxxxx")))))
         == "xxx" + ("yxxx" + "xxxxxxxxxxxx")
  {
    var rest := "-" + ("yxxx" + ("-" + "xxxxxxxxxxxx"));
    assert "-4" + ("xxx" + rest) == "-4" + "xxx" + rest;
    PlaceholdersAfter("-4", "xxx", rest);
    Tail4Placeholders();
  }

  lemma Tail2Placeholders()
    ensures Placeholders("-" + ("xxxx" + ("-4" + ("xxx" + ("-" + ("yxxx" + ("-" + "xxxxxxxxxxxx")))))))
         == "xxxx" + ("xxx" + ("yxxx" + "xxxxxxxxxxxx"))
  {
    var rest := "-4" + ("xxx" + ("-" + ("yxxx" + ("-" + "xxxxxxxxxxxx"))));
    assert "-" + ("xxxx" + rest) == "-" + "xxxx" + rest;
    PlaceholdersAfter("-", "xxxx", rest);
    Tail3Placeholders();
  }

  /** 31 placeholders: all `x` except the 16th, the variant `y`. */
  lemma TemplatePlaceholders()
    ensures Placeholders(Template) == "xxxxxxxx" + ("xxxx" + ("xxx" + ("yxxx" + "xxxxxxxxxxxx")))
  {
    var rest := "-" + ("xxxx" + ("-4" + ("xxx" + ("-" + ("yxxx" + ("-" + "xxxxxxxxxxxx"))))));
    TemplatePieces();
    assert Template == "" + "xxxxxxxx" + rest;
    PlaceholdersAfter("", "xxxxxxxx", rest);
    Tail2Placeholders();
  }

  /**
   * `generateUUID()`, given the draws: the version-4 layout of 36
   * characters, `-` at 8, 13, 18 and 23, the version digit `4` at 14, a
   * variant digit 8, 9, a or b at 19, and a lower-case hexadecimal digit
   * everywhere else.
   */
  function GenerateUuid(draws: seq<bv4>): (u: string)
    requires |draws| == 31
    ensures |u| == 36
    ensures u[8] == '-' && u[13] == '-' && u[18] == '-' && u[23] == '-'
    ensures u[14] == '4'
    ensures u[19] in "89ab"
    ensures forall i :: 0 <= i < 36 && !IsFixedPosition(i) ==> IsLowerHex(u[i])
  {
    FilledTemplate(draws);
    Fill(Template, draws)
  }

  lemma FilledTemplate(draws: seq<bv4>)
    requires |draws| == 31
    ensures |Placeholders(Template)| == 31
    ensures var u := Fill(Template, draws);
      && |u| == 36
      && u[8] == '-' && u[13] == '-' && u[18] == '-' && u[23] == '-'
      && u[14] == '4'
      && u[19] in "89ab"
      && forall i :: 0 <= i < 36 && !IsFixedPosition(i) ==> IsLowerHex(u[i])
  {
    TemplatePlaceholders();
    var u := Fill(Template, draws);
    TemplateFixed();
    forall i | 0 <= i < 36 && !IsFixedPosition(i) ensures IsLowerHex(u[i]) {
      TemplateAt(i);
    }
  }

  /** The positions of the four dashes, the version digit and the variant digit. */
  predicate IsFixedPosition(i: int)
  {
    i == 8 || i == 13 || i == 14 || i == 18 || i == 19 || i == 23
  }

  lemma TemplateFixed()
    ensures |Template| == 36
    ensures Template[8] == '-' && Template[13] == '-' && Template[18] == '-' && Template[23] == '-'
    ensures Template[14] == '4' && Template[19] == 'y'
  {
  }

  lemma TemplateAt(i: int)
    requires 0 <= i < 36 && !IsFixedPosition(i)
    ensures Template[i] == 'x'
  {
    TemplatePieces();
  }

  lemma HexDigitInjective(v: bv4, w: bv4)
    requires HexDigit(v) == HexDigit(w)
    ensures v == w
  {
  }

  /**
   * `Fill` loses nothing but the two high bits of each `y` draw: equal
   * outputs mean equal draws at every `x` and equal low bits at every `y`.
   */
  lemma {:induction false} FillInjective(t: string, a: seq<bv4>, b: seq<bv4>)
    requires |a| == |b| == |Placeholders(t)|
    requires Fill(t, a) == Fill(t, b)
    ensures forall k :: 0 <= k < |a| && Placeholders(t)[k] == 'x' ==> a[k] == b[k]
    ensures forall k :: 0 <= k < |a| && Placeholders(t)[k] == 'y' ==> a[k] & 3 == b[k] & 3
  {
    if t != [] {
      var ps := Placeholders(t);
      assert Fill(t, a)[0] == Fill(t, b)[0];
      assert Fill(t, a)[1..] == Fill(t, b)[1..];
      if IsPlaceholder(t[0]) {
        assert ps == [t[0]] + Placeholders(t[1..]);
        FillInjective(t[1..], a[1..], b[1..]);
        if t[0] == 'x' {
          HexDigitInjective(a[0], b[0]);
        } else {
          HexDigitInjective(VariantDigit(a[0]), VariantDigit(b[0]));
        }
        forall k | 0 < k < |a| ensures a[k] == a[1..][k - 1] && b[k] == b[1..][k - 1] { }
      } else {
        assert ps == Placeholders(t[1..]);
        FillInjective(t[1..], a, b);
      }
    }
  }

  /**
   * Two UUIDs are equal only if their draws are: all 31 agree except the
   * variant draw (the 16th), of which only the two low bits are kept.
   */
  lemma UuidInjective(a: seq<bv4>, b: seq<bv4>)
    requires |a| == 31 && |b| == 31
    requires GenerateUuid(a) == GenerateUuid(b)
    ensures forall k :: 0 <= k < 31 && k != 15 ==> a[k] == b[k]
    ensures a[15] & 3 == b[15] & 3
  {
    TemplateKinds();
    FillInjective(Template, a, b);
  }

  /** The template's 31 placeholders: `y` at the 16th, `x` everywhere else. */
  lemma TemplateKinds()
    ensures |Placeholders(Template)| == 31
    ensures Placeholders(Template)[15] == 'y'
    ensures forall k :: 0 <= k < 31 && k != 15 ==> Placeholders(Template)[k] == 'x'
  {
    TemplatePlaceholders();
    var ps := Placeholders(Template);
    forall k | 0 <= k < 31 && k != 15 ensures ps[k] == 'x' {
      PlaceholderAt(ps, k);
    }
  }

  /** Every placeholder but the 16th is an `x`. */
  lemma PlaceholderAt(ps: string, k: int)
    requires ps == "xxxxxxxx" + ("xxxx" + ("xxx" + ("yxxx" + "xxxxxxxxxxxx")))
    requires 0 <= k < 31 && k != 15
    ensures ps[k] == 'x'
  {
    var p4 := "yxxx" + "xxxxxxxxxxxx";
    var p3 := "xxx" + p4;
    var p2 := "xxxx" + p3;
    if k >= 8 {
      assert ps[k] == p2[k - 8];
      if k >= 12 {
        assert p2[k - 8] == p3[k - 12];
        if k >= 15 {
          assert p3[k - 12] == p4[k - 15];
        }
      }
    }
  }
}
