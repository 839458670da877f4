/**
 * The JavaScript string operations the translator calls, restricted to
 * `seq<char>`: `toLowerCase` (ASCII letters only), `replace` with a string
 * pattern (first occurrence only) and the coercion of `undefined` to a string.
 * Beside them, two reference definitions the translator does not call:
 * `indexOf`, which specifies where `replace` cuts the text, and
 * `Array.join('')` over tokens, which states the segmenter's round trip.
 */
module JsText {
  import opened Wrappers

  /** ASCII lower-casing of one character; every other character is kept. */
  function LowerChar(c: char): char
  {
    if 'A' <= c <= 'Z' then (c as int - 'A' as int + 'a' as int) as char else c
  }

  predicate IsUpper(c: char)
  {
    'A' <= c <= 'Z'
  }

  /** `s.toLowerCase()` on the ASCII range. */
  function ToLowerCase(s: string): (r: string)
    ensures |r| == |s|
    ensures forall i :: 0 <= i < |s| ==> !IsUpper(r[i])
    ensures forall i :: 0 <= i < |s| && !IsUpper(s[i]) ==> r[i] == s[i]
    ensures forall i :: 0 <= i < |s| && IsUpper(s[i]) ==> r[i] as int == s[i] as int + 32
  {
    seq(|s|, i requires 0 <= i < |s| => LowerChar(s[i]))
  }

  /** Lower-casing twice is lower-casing once. */
  lemma ToLowerCaseIdempotent(s: string)
    ensures ToLowerCase(ToLowerCase(s)) == ToLowerCase(s)
  {
  }

  /** `pat` occurs in `s` starting at index `i`. */
  predicate OccursAt(s: string, pat: string, i: nat)
  {
    i + |pat| <= |s| && s[i..i + |pat|] == pat
  }

  /** `s.indexOf(pat)`, the reference for where `replace` cuts the text: the
      first index at which `pat` occurs, or None for -1.
      What it finds is stated by `IndexOfFindsFirst`. */
  function IndexOf(s: string, pat: string): (r: Option<nat>)
    ensures r.Some? ==> r.value + |pat| <= |s|
    decreases |s|
  {
    if |s| < |pat| then None
    else if s[..|pat|] == pat then Some(0)
    else
      match IndexOf(s[1..], pat)
      case None => None
      case Some(k) => Some(k + 1)
  }

  /** `indexOf` returns an index where `pat` occurs and before which it does
      not, and -1 exactly when it occurs nowhere. */
  lemma {:induction false} IndexOfFindsFirst(s: string, pat: string)
    ensures IndexOf(s, pat).Some? ==> OccursAt(s, pat, IndexOf(s, pat).value)
    ensures IndexOf(s, pat).Some? ==> forall j :: 0 <= j < IndexOf(s, pat).value ==> !OccursAt(s, pat, j)
    ensures IndexOf(s, pat).None? ==> forall j :: 0 <= j <= |s| ==> !OccursAt(s, pat, j)
    decreases |s|
  {
    if |s| < |pat| || s[..|pat|] == pat {
    } else {
      IndexOfFindsFirst(s[1..], pat);
      forall j | 1 <= j <= |s|
        ensures OccursAt(s, pat, j) <==> OccursAt(s[1..], pat, j - 1)
      {
        if j + |pat| <= |s| {
          var here, there := s[j..j + |pat|], s[1..][j - 1..j - 1 + |pat|];
          assert here == there by {
            forall t | 0 <= t < |pat|
              ensures here[t] == there[t]
            {
              assert s[1..][j - 1 + t] == s[j + t];
            }
          }
        }
      }
      assert !OccursAt(s, pat, 0);
    }
  }

  /** `s.replace(pat, rep)` with a string pattern: the first occurrence of
      `pat`, scanning from the left, is replaced, and `s` is returned
      unchanged when `pat` does not occur. `ReplaceFirstAtIndexOf` states
      that this cuts `s` where `indexOf` points. */
  function ReplaceFirst(s: string, pat: string, rep: string): string
    decreases |s|
  {
    if |s| < |pat| then s
    else if s[..|pat|] == pat then rep + s[|pat|..]
    else [s[0]] + ReplaceFirst(s[1..], pat, rep)
  }

  /** `replace` keeps the text before the index `indexOf` returns, puts the
      replacement there and keeps the text after the occurrence; it changes
      nothing when `indexOf` finds no occurrence. */
  lemma {:induction false} ReplaceFirstAtIndexOf(s: string, pat: string, rep: string)
    ensures IndexOf(s, pat).None? ==> ReplaceFirst(s, pat, rep) == s
    ensures IndexOf(s, pat).Some? ==>
      ReplaceFirst(s, pat, rep) == s[..IndexOf(s, pat).value] + rep + s[IndexOf(s, pat).value + |pat|..]
    decreases |s|
  {
    if |s| < |pat| || s[..|pat|] == pat {
    } else {
      ReplaceFirstAtIndexOf(s[1..], pat, rep);
      match IndexOf(s[1..], pat)
      case None =>
      case Some(k) =>
        assert s[..k + 1] == [s[0]] + s[1..][..k];
        assert s[k + 1 + |pat|..] == s[1..][k + |pat|..];
    }
  }

  /** Text holding no `{`, hence no template placeholder. */
  predicate Plain(s: string)
  {
    '{' !in s
  }

  lemma PlainJoin(a: string, b: string)
    requires Plain(a) && Plain(b)
    ensures Plain(a + b)
  {
  }

  /** A placeholder starting with `{` cannot occur inside a prefix that has no
      `{`, so its first occurrence in `a + pat + b` is right after `a`. */
  lemma {:induction false} IndexAfterPlainPrefix(a: string, pat: string, b: string)
    requires Plain(a) && |pat| > 0 && pat[0] == '{'
    ensures IndexOf(a + pat + b, pat) == Some(|a|)
  {
    var s := a + pat + b;
    if a == [] {
      assert s[..|pat|] == pat;
    } else {
      assert s[0] == a[0] != '{';
      assert s[..|pat|] != pat by { assert s[..|pat|][0] == s[0]; }
      assert Plain(a[1..]) by { assert forall c :: c in a[1..] ==> c in a; }
      IndexAfterPlainPrefix(a[1..], pat, b);
      assert s[1..] == a[1..] + pat + b;
    }
  }

  /** Replacing the first occurrence of a `{`-placeholder that follows a plain
      prefix substitutes exactly that slot: `indexOf` finds the slot right
      after the prefix, and `replace` cuts the text there. */
  lemma FillSlot(a: string, pat: string, rep: string, b: string)
    requires Plain(a) && |pat| > 0 && pat[0] == '{'
    ensures ReplaceFirst(a + pat + b, pat, rep) == a + rep + b
  {
    var s := a + pat + b;
    IndexAfterPlainPrefix(a, pat, b);
    ReplaceFirstAtIndexOf(s, pat, rep);
    assert s[..|a|] == a && s[|a| + |pat|..] == b;
  }

  /** A string with no occurrence of `pat` is left unchanged by `replace`. */
  lemma ReplaceAbsent(s: string, pat: string, rep: string)
    requires forall j :: 0 <= j <= |s| ==> !OccursAt(s, pat, j)
    ensures ReplaceFirst(s, pat, rep) == s
  {
    IndexOfFindsFirst(s, pat);
    ReplaceFirstAtIndexOf(s, pat, rep);
  }

  /** `s.replace(pats[0], reps[0]).replace(pats[1], reps[1])...`: a chain of
      `replace` calls, applied left to right. */
  function ReplaceEach(s: string, pats: seq<string>, reps: seq<string>): string
    requires |pats| == |reps|
    decreases |pats|
  {
    if pats == [] then s else ReplaceEach(ReplaceFirst(s, pats[0], reps[0]), pats[1..], reps[1..])
  }

  /** The text `head + items[0] + chunks[0] + items[1] + chunks[1] + ...`,
      built left to right: a template whose slots are `items`, or the text
      that results once every slot holds its value. */
  function Layout(head: string, items: seq<string>, chunks: seq<string>): string
    requires |items| == |chunks|
    decreases |items|
  {
    if items == [] then head else Layout(head + items[0] + chunks[0], items[1..], chunks[1..])
  }

  lemma {:induction false} LayoutShift(h: string, x: string, items: seq<string>, chunks: seq<string>)
    requires |items| == |chunks|
    ensures Layout(h + x, items, chunks) == h + Layout(x, items, chunks)
    decreases |items|
  {
    if items != [] {
      assert h + x + items[0] + chunks[0] == h + (x + items[0] + chunks[0]);
      LayoutShift(h, x + items[0] + chunks[0], items[1..], chunks[1..]);
    }
  }

  /** Every string of the list is plain. */
  predicate AllPlain(xs: seq<string>)
  {
    forall i :: 0 <= i < |xs| ==> Plain(xs[i])
  }

  /** Every pattern is a slot: it starts with `{`. */
  predicate AllSlots(pats: seq<string>)
  {
    forall i :: 0 <= i < |pats| ==> |pats[i]| > 0 && pats[i][0] == '{'
  }

  /** A text laid out from plain pieces is plain. */
  lemma {:induction false} LayoutPlain(head: string, items: seq<string>, chunks: seq<string>)
    requires |items| == |chunks| && Plain(head) && AllPlain(items) && AllPlain(chunks)
    ensures Plain(Layout(head, items, chunks))
    decreases |items|
  {
    if items != [] {
      PlainJoin(head, items[0]);
      PlainJoin(head + items[0], chunks[0]);
      LayoutPlain(head + items[0] + chunks[0], items[1..], chunks[1..]);
    }
  }

  /** Filling a template whose text between the slots is plain, with plain
      values, puts each value exactly where its slot was: no value is
      mistaken for a later slot, and no slot is skipped. */
  lemma {:induction false} FillLayout(head: string, pats: seq<string>, chunks: seq<string>, reps: seq<string>)
    requires |pats| == |chunks| == |reps|
    requires Plain(head) && AllPlain(chunks) && AllPlain(reps) && AllSlots(pats)
    ensures ReplaceEach(Layout(head, pats, chunks), pats, reps) == Layout(head, reps, chunks)
    decreases |pats|
  {
    if pats != [] {
      var rest := Layout([], pats[1..], chunks[1..]);
      assert Layout(head, pats, chunks) == head + pats[0] + (chunks[0] + rest) by {
        assert head + pats[0] + chunks[0] == (head + pats[0]) + chunks[0] + [];
        LayoutShift((head + pats[0]) + chunks[0], [], pats[1..], chunks[1..]);
        assert (head + pats[0]) + chunks[0] + rest == head + pats[0] + (chunks[0] + rest);
      }
      FillSlot(head, pats[0], reps[0], chunks[0] + rest);
      assert ReplaceFirst(Layout(head, pats, chunks), pats[0], reps[0]) == Layout(head + reps[0] + chunks[0], pats[1..], chunks[1..]) by {
        assert head + reps[0] + chunks[0] == (head + reps[0] + chunks[0]) + [];
        LayoutShift(head + reps[0] + chunks[0], [], pats[1..], chunks[1..]);
        assert head + reps[0] + (chunks[0] + rest) == (head + reps[0] + chunks[0]) + rest;
      }
      PlainJoin(head, reps[0]);
      PlainJoin(head + reps[0], chunks[0]);
      FillLayout(head + reps[0] + chunks[0], pats[1..], chunks[1..], reps[1..]);
    }
  }

  /** `tokens.join('')`: the reference the segmenter's round trip is stated
      against. */
  function Concat(tokens: seq<string>): string
  {
    if tokens == [] then [] else tokens[0] + Concat(tokens[1..])
  }

  /** The string JavaScript produces for a possibly-undefined value in a
      template literal or as a `replace` argument. */
  function JsString(v: Option<string>): string
  {
    match v
    case Some(s) => s
    case None => "undefined"
  }
}
