/** `normalizeText` (src/lib/utils.ts): the ligature `œ` before a `u` is
    spelled out, so that `cœur` and `coeur` read alike. */
module TextUtils {

  /** `œ` or `Œ`: the characters the case-insensitive pattern matches first. */
  predicate IsOe(c: char) {
    c == '\U{0153}' || c == '\U{0152}'
  }

  /** `u` or `U`. */
  predicate IsU(c: char) {
    c == 'u' || c == 'U'
  }

  /** The number of positions where `œu` occurs, in any case, counted one
      position at a time. */
  function PairCount(text: string): nat
  {
    if |text| < 2 then 0
    else (if IsOe(text[0]) && IsU(text[1]) then 1 else 0) + PairCount(text[1..])
  }

  /** `text.replace(/œu/gi, 'oeu')`: the string scanned from the left, each
      match replaced and the scan resumed after it. Every occurrence is
      replaced: the output is one character longer per occurrence. */
  function NormalizeText(text: string): (r: string)
    ensures |r| == |text| + PairCount(text)
  {
    if |text| >= 2 && IsOe(text[0]) && IsU(text[1]) then
      assert !IsOe(text[1]);
      assert PairCount(text[1..]) == PairCount(text[2..]) by {
        assert text[1..][1..] == text[2..];
      }
      "oeu" + NormalizeText(text[2..])
    else if text == [] then []
    else [text[0]] + NormalizeText(text[1..])
  }

  /** Text without the ligature comes out unchanged. */
  lemma {:induction false} NoLigatureUnchanged(text: string)
    requires forall i :: 0 <= i < |text| ==> !IsOe(text[i])
    ensures NormalizeText(text) == text
  {
    if text != [] {
      NoLigatureUnchanged(text[1..]);
    }
  }

  /** Text without an `œu` comes out unchanged: a lone `œ` is kept. */
  lemma {:induction false} NoPairUnchanged(text: string)
    requires PairCount(text) == 0
    ensures NormalizeText(text) == text
  {
    if text != [] {
      NoPairUnchanged(text[1..]);
    }
  }

  /** The first character of the output: `o` where a pair starts, the
      input's own first character otherwise. */
  lemma NormalizeTextHead(text: string)
    requires text != []
    ensures NormalizeText(text) != []
    ensures NormalizeText(text)[0] == if |text| >= 2 && IsOe(text[0]) && IsU(text[1]) then 'o' else text[0]
  {
  }

  /** Regrouping of the pieces around a replacement. */
  lemma Regroup(p: string, x: string, y: string)
    ensures p + (x + "oeu" + y) == (p + x) + "oeu" + y
  {
  }

  /** Each occurrence becomes `oeu` where it stands: the text before it and
      the text after it are normalised on their own. */
  lemma {:induction false} NormalizeTextAt(a: string, c: char, d: char, b: string)
    requires IsOe(c) && IsU(d)
    ensures NormalizeText(a + [c, d] + b) == NormalizeText(a) + "oeu" + NormalizeText(b)
  {
    var t := a + [c, d] + b;
    if a == [] {
      assert t == [c, d] + b && t[2..] == b;
      assert NormalizeText(t) == "oeu" + NormalizeText(b);
    } else if |a| >= 2 && IsOe(a[0]) && IsU(a[1]) {
      assert t[0] == a[0] && t[1] == a[1];
      assert t[2..] == a[2..] + [c, d] + b;
      NormalizeTextAt(a[2..], c, d, b);
      Regroup("oeu", NormalizeText(a[2..]), NormalizeText(b));
    } else {
      assert t[0] == a[0];
      assert t[1] == if |a| == 1 then c else a[1];
      assert !IsU(c);
      assert t[1..] == a[1..] + [c, d] + b;
      NormalizeTextAt(a[1..], c, d, b);
      Regroup([a[0]], NormalizeText(a[1..]), NormalizeText(b));
    }
  }

  /** The replacement `oeu` starts no pair, whatever follows it. */
  lemma ReplacementAddsNoPair(rest: string)
    ensures PairCount("oeu" + rest) == PairCount(rest)
  {
    var u := "u" + rest;
    assert u[1..] == rest;
    assert PairCount(u) == PairCount(rest) by {
      if rest != [] {
        assert !IsOe(u[0]);
      }
    }
    var eu := "eu" + rest;
    assert eu[1..] == u;
    assert !IsOe(eu[0]);
    var r := "oeu" + rest;
    assert r[1..] == eu;
    assert !IsOe(r[0]);
  }

  /** No `œu` is left in the output. */
  lemma {:induction false} NoPairLeft(text: string)
    ensures PairCount(NormalizeText(text)) == 0
  {
    if |text| >= 2 && IsOe(text[0]) && IsU(text[1]) {
      NoPairLeft(text[2..]);
      ReplacementAddsNoPair(NormalizeText(text[2..]));
    } else if text != [] {
      NoPairLeft(text[1..]);
      var rest := NormalizeText(text[1..]);
      var r := [text[0]] + rest;
      assert r[1..] == rest;
      if rest != [] {
        NormalizeTextHead(text[1..]);
        assert r[1] == rest[0];
      }
    }
  }

  /** `normalizeText` is idempotent. */
  lemma NormalizeTextIdempotent(text: string)
    ensures NormalizeText(NormalizeText(text)) == NormalizeText(text)
  {
    NoPairLeft(text);
    NoPairUnchanged(NormalizeText(text));
  }
}
