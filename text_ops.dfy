/**
 * The string operations retrieval is built from: `clean` (lower-case, then
 * drop everything outside `[a-z0-9\s]`), `str.split()` with no separator, and
 * the substring test `w in text`. Characters are modelled ASCII-style: only
 * 'A'..'Z' have a lower-case form and the whitespace class is the ASCII part
 * of Python's `\s` / `str.isspace`.
 */
module TextOps {

  /** Python's `\s` (and `str.isspace`) restricted to ASCII. */
  predicate IsSpace(c: char) {
    c == ' ' || c == '\t' || c == '\n' || c == '\r' || c == '\U{B}' || c == '\U{C}'
    || ('\U{1C}' <= c <= '\U{1F}')
  }

  /** The characters `clean` keeps: the class `[a-z0-9\s]`. */
  predicate IsKept(c: char) {
    ('a' <= c <= 'z') || ('0' <= c <= '9') || IsSpace(c)
  }

  /** Lower-casing of one character. */
  function LowerChar(c: char): (d: char)
    ensures 'A' <= c <= 'Z' ==> 'a' <= d <= 'z' && d as int == c as int + 32
    ensures !('A' <= c <= 'Z') ==> d == c
  {
    if 'A' <= c <= 'Z' then (c as int + 32) as char else c
  }

  /** Lower-casing of a string, character by character. */
  function Lower(s: string): (r: string)
    ensures |r| == |s|
    ensures forall i :: 0 <= i < |s| ==> r[i] == LowerChar(s[i])
  {
    seq(|s|, i requires 0 <= i < |s| => LowerChar(s[i]))
  }

  /** The substitution that deletes every character outside `[a-z0-9\s]`. */
  function Strip(s: string): (r: string)
    ensures |r| <= |s|
    ensures forall i :: 0 <= i < |r| ==> IsKept(r[i])
  {
    if s == [] then []
    else (if IsKept(s[0]) then [s[0]] else []) + Strip(s[1..])
  }

  /** `clean`: lower-case, then strip. */
  function Clean(t: string): string {
    Strip(Lower(t))
  }

  /** Stripping a string made only of kept characters changes nothing. */
  lemma {:induction false} StripAllKept(s: string)
    requires forall i :: 0 <= i < |s| ==> IsKept(s[i])
    ensures Strip(s) == s
  {
    if s != [] {
      StripAllKept(s[1..]);
    }
  }

  /** Stripping distributes over concatenation. */
  lemma {:induction false} StripAppend(a: string, b: string)
    ensures Strip(a + b) == Strip(a) + Strip(b)
  {
    if a == [] {
      assert a + b == b;
    } else {
      assert (a + b)[1..] == a[1..] + b;
      StripAppend(a[1..], b);
    }
  }

  /**
   * Stripping is the filter keeping exactly the characters of `[a-z0-9\s]`,
   * in order: a kept character survives wherever it stands, any other one is
   * deleted, and the rest of the string is stripped on its own.
   */
  lemma StripFilter(a: string, c: char, b: string)
    ensures Strip(a + [c] + b) == Strip(a) + (if IsKept(c) then [c] else []) + Strip(b)
  {
    StripAppend(a, [c] + b);
    assert a + [c] + b == a + ([c] + b);
    assert ([c] + b)[1..] == b;
  }

  /**
   * The output of `clean` consists only of lower-case ASCII letters, digits and
   * whitespace, and `clean` leaves exactly such strings unchanged.
   */
  lemma CleanFixedPoints(t: string)
    ensures forall i :: 0 <= i < |Clean(t)| ==> IsKept(Clean(t)[i])
    ensures Clean(t) == t <==> forall i :: 0 <= i < |t| ==> IsKept(t[i])
  {
    if forall i :: 0 <= i < |t| ==> IsKept(t[i]) {
      assert Lower(t) == t;
      StripAllKept(t);
    }
  }

  /** `clean` is idempotent. */
  lemma CleanIdempotent(t: string)
    ensures Clean(Clean(t)) == Clean(t)
  {
    CleanFixedPoints(t);
    CleanFixedPoints(Clean(t));
  }

  /** Length of the leading run of non-whitespace characters. */
  function WordLength(s: string): (n: nat)
    ensures n <= |s|
    ensures forall j :: 0 <= j < n ==> !IsSpace(s[j])
    ensures n < |s| ==> IsSpace(s[n])
  {
    if s == [] || IsSpace(s[0]) then 0 else 1 + WordLength(s[1..])
  }

  /** Splitting on runs of whitespace with no separator given: the maximal runs of non-whitespace characters, in order. */
  function Words(s: string): (ws: seq<string>)
    ensures forall k :: 0 <= k < |ws| ==> ws[k] != [] && forall j :: 0 <= j < |ws[k]| ==> !IsSpace(ws[k][j])
    decreases |s|
  {
    if s == [] then []
    else if IsSpace(s[0]) then Words(s[1..])
    else
      var n := WordLength(s);
      [s[..n]] + Words(s[n..])
  }

  /** A non-empty run without whitespace is one single word. */
  lemma WordsOfWord(w: string)
    requires w != [] && forall j :: 0 <= j < |w| ==> !IsSpace(w[j])
    ensures Words(w) == [w]
  {
    assert WordLength(w) == |w|;
    assert w[..|w|] == w;
  }

  /**
   * A whitespace character separates words: the words on its two sides never
   * merge. With `WordsOfWord` this makes the words the maximal non-whitespace runs.
   */
  lemma {:induction false} WordsSplitAtSpace(a: string, c: char, b: string)
    requires IsSpace(c)
    ensures Words(a + [c] + b) == Words(a) + Words(b)
    decreases |a|
  {
    var s := a + [c] + b;
    if a == [] {
      assert s[1..] == b;
    } else if IsSpace(a[0]) {
      assert s[1..] == a[1..] + [c] + b;
      WordsSplitAtSpace(a[1..], c, b);
    } else {
      var m := WordLength(a);
      var n := WordLength(s);
      assert m < |a| ==> s[m] == a[m];
      assert m == |a| ==> s[m] == c;
      assert n == m;
      assert s[..n] == a[..m];
      assert s[n..] == a[m..] + [c] + b;
      WordsSplitAtSpace(a[m..], c, b);
    }
  }

  /** `s` with its whitespace removed: the reference `Words` is checked against. */
  function NonSpace(s: string): (r: string)
    ensures forall j :: 0 <= j < |r| ==> !IsSpace(r[j])
  {
    if s == [] then [] else (if IsSpace(s[0]) then [] else [s[0]]) + NonSpace(s[1..])
  }

  function Concat(ws: seq<string>): string {
    if ws == [] then [] else ws[0] + Concat(ws[1..])
  }

  lemma {:induction false} NonSpaceAppend(a: string, b: string)
    ensures NonSpace(a + b) == NonSpace(a) + NonSpace(b)
  {
    if a == [] {
      assert a + b == b;
    } else {
      assert (a + b)[1..] == a[1..] + b;
      NonSpaceAppend(a[1..], b);
    }
  }

  lemma {:induction false} NonSpaceOfWord(w: string)
    requires forall j :: 0 <= j < |w| ==> !IsSpace(w[j])
    ensures NonSpace(w) == w
  {
    if w != [] {
      NonSpaceOfWord(w[1..]);
    }
  }

  /** Splitting loses nothing but whitespace: its words concatenate to the non-space characters. */
  lemma {:induction false} WordsLossless(s: string)
    ensures Concat(Words(s)) == NonSpace(s)
    decreases |s|
  {
    if s == [] {
    } else if IsSpace(s[0]) {
      WordsLossless(s[1..]);
    } else {
      var n := WordLength(s);
      assert s == s[..n] + s[n..];
      NonSpaceAppend(s[..n], s[n..]);
      NonSpaceOfWord(s[..n]);
      WordsLossless(s[n..]);
      assert Words(s)[1..] == Words(s[n..]);
    }
  }

  /** Splitting yields no words exactly when the string is all whitespace. */
  lemma {:induction false} WordsEmptyIff(s: string)
    ensures Words(s) == [] <==> forall i :: 0 <= i < |s| ==> IsSpace(s[i])
    decreases |s|
  {
    if s != [] && IsSpace(s[0]) {
      WordsEmptyIff(s[1..]);
      assert forall i :: 1 <= i < |s| ==> s[1..][i - 1] == s[i];
    }
  }

  /** A question without letters or digits, such as "???", has no query tokens. */
  lemma NoAlphanumericNoWords(q: string)
    requires forall i :: 0 <= i < |q| ==> !IsKept(LowerChar(q[i])) || IsSpace(q[i])
    ensures Words(Clean(q)) == []
  {
    CleanOnlySpaces(q);
    WordsEmptyIff(Clean(q));
  }

  lemma {:induction false} StripOnlySpaces(s: string)
    requires forall i :: 0 <= i < |s| ==> !IsKept(s[i]) || IsSpace(s[i])
    ensures forall i :: 0 <= i < |Strip(s)| ==> IsSpace(Strip(s)[i])
  {
    if s != [] {
      StripOnlySpaces(s[1..]);
    }
  }

  lemma CleanOnlySpaces(q: string)
    requires forall i :: 0 <= i < |q| ==> !IsKept(LowerChar(q[i])) || IsSpace(q[i])
    ensures forall i :: 0 <= i < |Clean(q)| ==> IsSpace(Clean(q)[i])
  {
    StripOnlySpaces(Lower(q));
  }

  /** `w` occurs in `text` starting at index `i`. */
  predicate OccursAt(text: string, w: string, i: int) {
    0 <= i && i + |w| <= |text| && text[i..i + |w|] == w
  }

  /** Python's `w in text` on strings: substring containment. */
  predicate Contains(text: string, w: string)
    decreases |text|
  {
    if |w| > |text| then false
    else if text[..|w|] == w then true
    else Contains(text[1..], w)
  }

  /** `Contains` holds exactly when `w` occurs at some index of `text`. */
  lemma {:induction false} ContainsIff(text: string, w: string)
    ensures Contains(text, w) <==> exists i :: OccursAt(text, w, i)
    decreases |text|
  {
    if |w| > |text| {
    } else if text[..|w|] == w {
      assert OccursAt(text, w, 0);
    } else {
      ContainsIff(text[1..], w);
      if Contains(text[1..], w) {
        var i :| OccursAt(text[1..], w, i);
        assert text[i + 1..i + 1 + |w|] == text[1..][i..i + |w|];
        assert OccursAt(text, w, i + 1);
      }
      if i :| OccursAt(text, w, i) {
        assert i != 0;
        assert text[1..][i - 1..i - 1 + |w|] == text[i..i + |w|];
        assert OccursAt(text[1..], w, i - 1);
      }
    }
  }

  /** Some word of `words`, tried in order, is a substring of `text`. */
  predicate AnyOccurs(words: seq<string>, text: string) {
    words != [] && (Contains(text, words[0]) || AnyOccurs(words[1..], text))
  }

  /** `any` holds exactly when some word of the list occurs in `text`; never for an empty list. */
  lemma {:induction false} AnyOccursIff(words: seq<string>, text: string)
    ensures AnyOccurs(words, text) <==> exists k :: 0 <= k < |words| && Contains(text, words[k])
  {
    if words != [] {
      AnyOccursIff(words[1..], text);
      if k :| 0 < k < |words| && Contains(text, words[k]) {
        assert words[1..][k - 1] == words[k];
      }
      if k :| 0 <= k < |words[1..]| && Contains(text, words[1..][k]) {
        assert words[k + 1] == words[1..][k];
      }
    }
  }
}
