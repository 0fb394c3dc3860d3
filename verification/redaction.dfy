/** Literal-secret redaction (src/botafuturo/adapters/logging/redaction.py): the replacement loop of
    `redact_text` over an unordered set of secrets, and the recursive walk of `redact_mapping`. */
module Redaction {
  const REDACTED: string := "***REDACTED***"

  /** Left-to-right replacement of non-overlapping occurrences, as `str.replace` does. */
  function Replace(text: string, target: string, replacement: string): string
    requires target != ""
  {
    if |text| < |target| then text
    else if target <= text then replacement + Replace(text[|target|..], target, replacement)
    else [text[0]] + Replace(text[1..], target, replacement)
  }

  /** A possible iteration order of a set of registered (hence nonempty) secrets. */
  ghost predicate Order(secrets: seq<string>) {
    && "" !in secrets
    && forall i, j :: 0 <= i < j < |secrets| ==> secrets[i] != secrets[j]
  }

  function ReplaceAll(text: string, secrets: seq<string>, marker: string): string
    requires "" !in secrets
  {
    if secrets == [] then text
    else
      var n := |secrets| - 1;
      Replace(ReplaceAll(text, secrets[..n], marker), secrets[n], marker)
  }

  class SecretRegistry {
    var values: set<string>

    constructor ()
      ensures values == {}
    {
      values := {};
    }

    method Register(value: string)
      modifies this
      ensures values == if value == "" then old(values) else old(values) + {value}
    {
      if value != "" {
        values := values + {value};
      }
    }

    /** The loop of `redact_text`; Python leaves the order of iteration open. */
    method RedactText(text: string) returns (result: string)
      requires "" !in values
      ensures exists secrets :: Order(secrets) && (set x | x in secrets) == values
                                && result == ReplaceAll(text, secrets, REDACTED)
    {
      result := text;
      var rest := values;
      ghost var done: seq<string> := [];
      while rest != {}
        invariant rest <= values
        invariant (set x | x in done) == values - rest
        invariant Order(done)
        invariant result == ReplaceAll(text, done, REDACTED)
      {
        var secret :| secret in rest;
        result := Replace(result, secret, REDACTED);
        assert secret !in done by {
          assert secret !in (set x | x in done);
        }
        assert (done + [secret])[..|done|] == done;
        assert (set x | x in done + [secret]) == (set x | x in done) + {secret};
        assert values - (rest - {secret}) == (values - rest) + {secret};
        rest := rest - {secret};
        done := done + [secret];
      }
    }
  }

  // ---------- when a secret cannot survive ----------

  ghost predicate OccursAt(x: string, s: string, i: nat) {
    i + |x| <= |s| && s[i..i + |x|] == x
  }

  ghost predicate Occurs(x: string, s: string) {
    exists i: nat :: OccursAt(x, s, i)
  }

  /** `x` and the marker can touch but not overlap: neither contains the other, and no end of one
      is a beginning of the other. */
  ghost predicate Separate(x: string, marker: string) {
    && x != ""
    && !Occurs(x, marker) && !Occurs(marker, x)
    && forall n :: 0 < n < |x| && n < |marker| ==>
                     x[|x| - n..] != marker[..n] && marker[|marker| - n..] != x[..n]
  }

  lemma ShiftOccurrence(x: string, front: string, rest: string, i: nat)
    ensures OccursAt(x, front + rest, |front| + i) <==> OccursAt(x, rest, i)
  {
    if i + |x| <= |rest| {
      assert (front + rest)[|front| + i..|front| + i + |x|] == rest[i..i + |x|];
    }
  }

  lemma LaterOccurrence(x: string, s: string, k: nat)
    requires k <= |s| && Occurs(x, s[k..])
    ensures Occurs(x, s)
  {
    var j: nat :| OccursAt(x, s[k..], j);
    ShiftOccurrence(x, s[..k], s[k..], j);
    assert s[..k] + s[k..] == s;
  }

  lemma ReplaceHere(s: string, y: string, m: string)
    requires y != "" && y <= s
    ensures Replace(s, y, m) == m + Replace(s[|y|..], y, m)
  {
  }

  lemma ReplaceLater(s: string, y: string, m: string)
    requires 0 < |y| <= |s| && !(y <= s)
    ensures Replace(s, y, m) == [s[0]] + Replace(s[1..], y, m)
  {
  }

  lemma ReplaceNowhere(s: string, y: string, m: string)
    requires |s| < |y|
    ensures Replace(s, y, m) == s
  {
  }

  /** No end of a separate `x` begins on the marker. */
  lemma TailNotOnMarker(x: string, k: nat, m: string, rest: string)
    requires Separate(x, m) && k < |x|
    ensures !(x[k..] <= m + rest)
  {
    var n := |x| - k;
    if n >= |m| {
      assert !OccursAt(m, x, k);
      assert x[k..][..|m|] == x[k..k + |m|];
      assert (m + rest)[..|m|] == m;
    } else {
      assert !OccursAt(x, m, 0);
      assert (m + rest)[..n] == m[..n];
    }
  }

  /** No occurrence of a separate `x` starts inside the marker. */
  lemma NotAcrossMarker(x: string, i: nat, m: string, rest: string)
    requires Separate(x, m) && i < |m|
    ensures !OccursAt(x, m + rest, i)
  {
    if i + |x| <= |m| {
      assert !OccursAt(x, m, i);
      assert (m + rest)[i..i + |x|] == m[i..i + |x|];
    } else if i + |x| <= |m + rest| {
      var n := |m| - i;
      assert (m + rest)[i..i + |x|][..n] == m[i..];
      if i == 0 {
        assert !OccursAt(m, x, 0);
      } else {
        assert m[|m| - n..] != x[..n];
      }
    }
  }

  /** An end of `x` at the beginning of the output was already at the beginning of the input. */
  lemma {:induction false} TailComesFromInput(x: string, k: nat, s: string, y: string, m: string)
    requires Separate(x, m) && y != "" && k <= |x|
    requires x[k..] <= Replace(s, y, m)
    ensures x[k..] <= s
    decreases |s|
  {
    if k < |x| && |s| >= |y| {
      if y <= s {
        TailNotOnMarker(x, k, m, Replace(s[|y|..], y, m));
        assert false;
      } else {
        assert x[k + 1..] == x[k..][1..];
        TailComesFromInput(x, k + 1, s[1..], y, m);
      }
    }
  }

  /** Replacing anything by the marker creates no new occurrence of a separate secret. */
  lemma {:induction false} NoNewOccurrence(x: string, i: nat, s: string, y: string, m: string)
    requires Separate(x, m) && y != ""
    requires OccursAt(x, Replace(s, y, m), i)
    ensures Occurs(x, s)
    decreases |s|
  {
    hide Replace, Separate;
    if |s| < |y| {
      ReplaceNowhere(s, y, m);
    } else if y <= s {
      ReplaceHere(s, y, m);
      var rest := Replace(s[|y|..], y, m);
      hide OccursAt;
      if i < |m| {
        NotAcrossMarker(x, i, m, rest);
        assert false;
      } else {
        ShiftOccurrence(x, m, rest, i - |m|);
        NoNewOccurrence(x, i - |m|, s[|y|..], y, m);
        LaterOccurrence(x, s, |y|);
      }
    } else if i == 0 {
      assert x[0..] == x;
      TailComesFromInput(x, 0, s, y, m);
      assert OccursAt(x, s, 0);
    } else {
      ReplaceLater(s, y, m);
      hide OccursAt;
      ShiftOccurrence(x, [s[0]], Replace(s[1..], y, m), i - 1);
      NoNewOccurrence(x, i - 1, s[1..], y, m);
      LaterOccurrence(x, s, 1);
    }
  }

  lemma NotAtBeginning(x: string, s: string, m: string)
    requires Separate(x, m) && !(x <= s)
    ensures !OccursAt(x, Replace(s, x, m), 0)
  {
    assert x[0..] == x;
    hide Replace;
    if x <= Replace(s, x, m) {
      TailComesFromInput(x, 0, s, x, m);
      assert false;
    }
  }

  lemma TooShort(x: string, s: string, m: string)
    requires |s| < |x|
    ensures Replace(s, x, m) == s && forall i: nat :: !OccursAt(x, s, i)
  {
  }

  lemma SeparateIsNotEmpty(x: string, m: string)
    requires Separate(x, m)
    ensures x != ""
  {
  }

  /** Replacing a separate secret removes it. */
  lemma {:induction false} ReplacedIsGone(x: string, i: nat, s: string, m: string)
    requires Separate(x, m)
    ensures x != "" && !OccursAt(x, Replace(s, x, m), i)
    decreases |s|
  {
    hide Replace, Separate, Occurs, OccursAt;
    SeparateIsNotEmpty(x, m);
    if |s| < |x| {
      TooShort(x, s, m);
    } else if x <= s {
      ReplaceHere(s, x, m);
      var rest := Replace(s[|x|..], x, m);
      if i < |m| {
        NotAcrossMarker(x, i, m, rest);
      } else {
        ReplacedIsGone(x, i - |m|, s[|x|..], m);
        ShiftOccurrence(x, m, rest, i - |m|);
      }
    } else if i == 0 {
      NotAtBeginning(x, s, m);
    } else {
      ReplaceLater(s, x, m);
      ReplacedIsGone(x, i - 1, s[1..], m);
      ShiftOccurrence(x, [s[0]], Replace(s[1..], x, m), i - 1);
    }
  }

  /** A separate registered secret never survives, whatever the text, the other secrets and the
      order of iteration, even when secrets overlap each other. */
  lemma {:induction false} SeparateSecretIsHidden(x: string, text: string, secrets: seq<string>, m: string)
    requires Separate(x, m) && "" !in secrets && x in secrets
    ensures !Occurs(x, ReplaceAll(text, secrets, m))
  {
    var n := |secrets| - 1;
    var before := ReplaceAll(text, secrets[..n], m);
    forall i: nat ensures !OccursAt(x, ReplaceAll(text, secrets, m), i) {
      if OccursAt(x, ReplaceAll(text, secrets, m), i) {
        if secrets[n] == x {
          ReplacedIsGone(x, i, before, m);
        } else {
          SeparateSecretIsHidden(x, text, secrets[..n], m);
          NoNewOccurrence(x, i, before, secrets[n], m);
        }
        assert false;
      }
    }
  }

  // ---------- exactly then ----------

  function Repeat(c: char, n: nat): (r: string)
    ensures |r| == n && forall i :: 0 <= i < n ==> r[i] == c
  {
    seq(n, _ => c)
  }

  lemma {:induction false} NothingToReplace(s: string, x: string, m: string)
    requires x != "" && !Occurs(x, s)
    ensures Replace(s, x, m) == s
  {
    if |s| >= |x| {
      assert x <= s ==> OccursAt(x, s, 0);
      assert [s[0]] + s[1..] == s;
      forall i: nat ensures !OccursAt(x, s[1..], i) {
        ShiftOccurrence(x, [s[0]], s[1..], i);
      }
      NothingToReplace(s[1..], x, m);
    }
  }

  /** A filler longer than `a` and `b` whose letter does not end `a` is replaced exactly in place. */
  lemma {:induction false} ReplaceFiller(a: string, y: string, b: string, m: string)
    requires |a| < |y| && |b| < |y| && (a != "" ==> forall i :: 0 <= i < |y| ==> y[i] != a[|a| - 1])
    ensures Replace(a + y + b, y, m) == a + m + b
    decreases |a|
  {
    hide Replace;
    var s := a + y + b;
    if a == "" {
      assert s == y + b && a + m + b == m + b && s[|y|..] == b;
      ReplaceHere(s, y, m);
      ReplaceNowhere(b, y, m);
    } else {
      assert s[|a| - 1] != y[|a| - 1];
      assert s[1..] == a[1..] + y + b && s[0] == a[0];
      ReplaceLater(s, y, m);
      ReplaceFiller(a[1..], y, b, m);
      assert [a[0]] + (a[1..] + m + b) == a + m + b;
    }
  }

  lemma FillerAvoids(x: string, a: string, b: string, q: char, i: nat)
    requires x != "" && |a| < |x| && |b| < |x| && q != x[0] && q != x[|x| - 1]
    ensures !OccursAt(x, a + Repeat(q, |x| + 1) + b, i)
  {
    var text := a + Repeat(q, |x| + 1) + b;
    if i + |x| <= |text| {
      assert text[i..i + |x|][0] == text[i];
      assert text[i..i + |x|][|x| - 1] == text[i + |x| - 1];
      assert text[i] == q || text[i + |x| - 1] == q;
    }
  }

  function OtherLetter(c: char, d: char, e: char): (r: char)
    ensures r != c && r != d && r != e
  {
    if 'a' !in {c, d, e} then 'a'
    else if 'b' !in {c, d, e} then 'b'
    else if 'c' !in {c, d, e} then 'c'
    else 'd'
  }

  /** If the marker between `a` and `b` spells out `x`, a second secret makes `x` leak. */
  lemma MarkerCompletes(x: string, a: string, b: string, m: string)
    requires x != "" && |a| < |x| && |b| < |x| && Occurs(x, a + m + b)
    ensures Leaks(x, m)
  {
    var end := if a == "" then x[0] else a[|a| - 1];
    var q := OtherLetter(x[0], x[|x| - 1], end);
    var y := Repeat(q, |x| + 1);
    var text, secrets := a + y + b, [x, y];
    forall i: nat ensures !OccursAt(x, text, i) {
      FillerAvoids(x, a, b, q, i);
    }
    NothingToReplace(text, x, m);
    ReplaceFiller(a, y, b, m);
    TwoSecrets(text, x, y, m);
    hide Replace, ReplaceAll, Occurs, OccursAt;
    assert x[0] != y[0];
    assert Order(secrets) && x == secrets[0];
  }

  lemma TwoSecrets(text: string, x: string, y: string, m: string)
    requires x != "" && y != ""
    ensures ReplaceAll(text, [x, y], m) == Replace(Replace(text, x, m), y, m)
  {
    assert [x, y][..1] == [x] && [x][..0] == [];
    assert ReplaceAll(text, [x], m) == Replace(text, x, m);
  }

  /** Some text, other secrets and iteration order leave `x` in the output. */
  ghost predicate Leaks(x: string, m: string) {
    exists text, secrets :: Order(secrets) && x in secrets && Occurs(x, ReplaceAll(text, secrets, m))
  }

  lemma EndMeetsMarker(x: string, m: string, n: nat)
    requires 0 < n < |x| && n < |m| && x[|x| - n..] == m[..n]
    ensures Occurs(x, x[..|x| - n] + m + "")
  {
    var t := x[..|x| - n] + m + "";
    assert t[..|x|] == x[..|x| - n] + x[|x| - n..] == x;
    assert OccursAt(x, t, 0);
  }

  lemma MarkerMeetsBeginning(x: string, m: string, n: nat)
    requires 0 < n < |x| && n < |m| && m[|m| - n..] == x[..n]
    ensures Occurs(x, "" + m + x[n..])
  {
    var t := "" + m + x[n..];
    assert t[|m| - n..|m| - n + |x|] == m[|m| - n..] + x[n..] == x;
    assert OccursAt(x, t, |m| - n);
  }

  lemma OverlapLeaks(x: string, m: string)
    requires x != "" && m != "" && !Separate(x, m)
    ensures Leaks(x, m)
  {
    hide Leaks, ReplaceAll;
    if Occurs(x, m) {
      assert "" + m + "" == m;
      MarkerCompletes(x, "", "", m);
    } else if Occurs(m, x) {
      var i: nat :| OccursAt(m, x, i);
      var a, b := x[..i], x[i + |m|..];
      assert a + m + b == x;
      assert OccursAt(x, a + m + b, 0);
      MarkerCompletes(x, a, b, m);
    } else {
      var n :| 0 < n < |x| && n < |m| && !(x[|x| - n..] != m[..n] && m[|m| - n..] != x[..n]);
      if x[|x| - n..] == m[..n] {
        EndMeetsMarker(x, m, n);
        MarkerCompletes(x, x[..|x| - n], "", m);
      } else {
        MarkerMeetsBeginning(x, m, n);
        MarkerCompletes(x, "", x[n..], m);
      }
    }
  }

  /** The condition is exact: a nonempty secret is hidden in every text, beside every other secret and
      in every iteration order if and only if it is separate from the marker. */
  lemma HiddenExactlyWhenSeparate(x: string, m: string)
    requires x != "" && m != ""
    ensures !Leaks(x, m) <==> Separate(x, m)
  {
    if Separate(x, m) {
      forall text, secrets | Order(secrets) && x in secrets
        ensures !Occurs(x, ReplaceAll(text, secrets, m))
      {
        SeparateSecretIsHidden(x, text, secrets, m);
      }
    } else {
      OverlapLeaks(x, m);
    }
  }

  /** A secret that leaks: "RED" is part of the marker that replaces another secret. */
  lemma MarkerSpellsRed()
    ensures !Separate("RED", REDACTED)
    ensures Order(["RED", "q"]) && Occurs("RED", ReplaceAll("q", ["RED", "q"], REDACTED))
    ensures ReplaceAll("q", ["RED", "q"], REDACTED) == "***REDACTED***"
  {
    assert OccursAt("RED", REDACTED, 3);
    TwoSecrets("q", "RED", "q", REDACTED);
    assert Replace("q", "RED", REDACTED) == "q";
    assert "q"[1..] == "" && Replace("", "q", REDACTED) == "";
    assert Replace("q", "q", REDACTED) == REDACTED + "";
    assert REDACTED + "" == REDACTED;
    assert "RED"[0] != "q"[0];
  }

  // ---------- when text comes through unchanged ----------

  lemma {:induction false} StarsStay(s: string, y: string)
    requires y != "" && ('*' in s || Occurs(y, s))
    ensures '*' in Replace(s, y, REDACTED)
  {
    if |s| < |y| {
    } else if y <= s {
      assert REDACTED[0] == '*';
      assert Replace(s, y, REDACTED)[0] == '*';
    } else if s[0] == '*' {
      assert Replace(s, y, REDACTED)[0] == '*';
    } else {
      if Occurs(y, s) {
        var i: nat :| OccursAt(y, s, i);
        assert i > 0;
        assert [s[0]] + s[1..] == s;
        ShiftOccurrence(y, [s[0]], s[1..], i - 1);
      }
      StarsStay(s[1..], y);
    }
  }

  /** Star-free text is left alone exactly when no secret occurs in it; otherwise it gains a star. */
  lemma {:induction false} UnchangedExactlyWhenNoSecret(text: string, secrets: seq<string>)
    requires "" !in secrets && '*' !in text
    ensures (forall x :: x in secrets ==> !Occurs(x, text)) ==> ReplaceAll(text, secrets, REDACTED) == text
    ensures (exists x :: x in secrets && Occurs(x, text)) ==> '*' in ReplaceAll(text, secrets, REDACTED)
  {
    if secrets != [] {
      var n := |secrets| - 1;
      UnchangedExactlyWhenNoSecret(text, secrets[..n]);
      var before := ReplaceAll(text, secrets[..n], REDACTED);
      if exists x :: x in secrets && Occurs(x, text) {
        var x :| x in secrets && Occurs(x, text);
        if '*' !in before {
          assert x !in secrets[..n];
          assert forall z :: z in secrets[..n] ==> !Occurs(z, text);
          assert x == secrets[n];
        }
        StarsStay(before, secrets[n]);
      } else {
        assert !Occurs(secrets[n], text);
        NothingToReplace(text, secrets[n], REDACTED);
      }
    }
  }

  // ---------- what replacing means ----------

  /** The parts of the text between the occurrences of `target` that are replaced. */
  function Parts(text: string, target: string): (r: seq<string>)
    requires target != ""
    ensures r != []
  {
    if |text| < |target| then [text]
    else if target <= text then [""] + Parts(text[|target|..], target)
    else
      var rest := Parts(text[1..], target);
      [[text[0]] + rest[0]] + rest[1..]
  }

  function Join(parts: seq<string>, separator: string): string
    requires parts != []
  {
    if |parts| == 1 then parts[0] else parts[0] + separator + Join(parts[1..], separator)
  }

  /** No part and no beginning of what follows it holds an earlier occurrence: each replaced one is the
      leftmost, and none is left. */
  ghost predicate Leftmost(parts: seq<string>, target: string) {
    && parts != []
    && (forall i, k: nat :: 0 <= i < |parts| - 1 && k < |parts[i]| ==> !OccursAt(target, parts[i] + target, k))
    && !Occurs(target, parts[|parts| - 1])
  }

  lemma JoinFirst(c: char, parts: seq<string>, separator: string)
    requires parts != []
    ensures Join([[c] + parts[0]] + parts[1..], separator) == [c] + Join(parts, separator)
  {
    var longer := [[c] + parts[0]] + parts[1..];
    assert longer[1..] == parts[1..];
    if |parts| > 1 {
      assert [c] + parts[0] + separator + Join(parts[1..], separator)
          == [c] + (parts[0] + separator + Join(parts[1..], separator));
    }
  }

  lemma JoinEmpty(parts: seq<string>, separator: string)
    requires parts != []
    ensures Join([""] + parts, separator) == separator + Join(parts, separator)
  {
    assert ([""] + parts)[1..] == parts;
    assert "" + separator + Join(parts, separator) == separator + Join(parts, separator);
  }

  /** Replacing cuts the text at its leftmost occurrences, one after the other and none overlapping, and
      joins the same parts with the replacement: nothing else changes. */
  lemma {:induction false} ReplaceCutsAndJoins(text: string, target: string, replacement: string)
    requires target != ""
    ensures Join(Parts(text, target), target) == text
    ensures Join(Parts(text, target), replacement) == Replace(text, target, replacement)
    ensures Leftmost(Parts(text, target), target)
    decreases |text|
  {
    var parts := Parts(text, target);
    if |text| < |target| {
    } else if target <= text {
      var rest := text[|target|..];
      ReplaceCutsAndJoins(rest, target, replacement);
      JoinEmpty(Parts(rest, target), target);
      JoinEmpty(Parts(rest, target), replacement);
      assert target + rest == text;
      EmptyPartIsLeftmost(Parts(rest, target), target);
    } else {
      var rest := text[1..];
      ReplaceCutsAndJoins(rest, target, replacement);
      JoinFirst(text[0], Parts(rest, target), target);
      JoinFirst(text[0], Parts(rest, target), replacement);
      assert [text[0]] + rest == text;
      JoinBegins(Parts(rest, target), target);
      LongerPartIsLeftmost(text, Parts(rest, target), target);
    }
  }

  lemma EmptyPartIsLeftmost(parts: seq<string>, target: string)
    requires Leftmost(parts, target)
    ensures Leftmost([""] + parts, target)
  {
    hide OccursAt;
    var longer := [""] + parts;
    forall i, k: nat | 0 <= i < |longer| - 1 && k < |longer[i]| ensures !OccursAt(target, longer[i] + target, k) {
      assert longer[i] == parts[i - 1];
    }
    assert longer[|longer| - 1] == parts[|parts| - 1];
  }

  /** A text begins with its first part, and with the separator after it if there are more. */
  lemma JoinBegins(parts: seq<string>, separator: string)
    requires parts != []
    ensures if |parts| == 1 then Join(parts, separator) == parts[0]
            else parts[0] + separator <= Join(parts, separator)
  {
  }

  /** One more letter in front, if it begins no occurrence, lets in no occurrence among the first n. */
  lemma NoneEarlier(c: char, first: string, target: string, n: nat)
    requires !OccursAt(target, [c] + first, 0)
    requires forall k: nat :: k < n ==> !OccursAt(target, first, k)
    ensures forall k: nat :: k < n + 1 ==> !OccursAt(target, [c] + first, k)
  {
    forall k: nat | k < n + 1 ensures !OccursAt(target, [c] + first, k) {
      if k > 0 {
        ShiftOccurrence(target, [c], first, k - 1);
      }
    }
  }

  lemma BeginsNoOccurrence(text: string, beginning: string, target: string)
    requires beginning <= text && !(target <= text)
    ensures !OccursAt(target, beginning, 0)
  {
    assert |target| <= |beginning| ==> beginning[..|target|] == text[..|target|];
  }

  lemma OnlyPartGrows(c: char, part: string, target: string)
    requires Leftmost([part], target) && !OccursAt(target, [c] + part, 0)
    ensures Leftmost([[c] + part], target)
  {
    hide OccursAt;
    assert !Occurs(target, [part][0]);
    forall k: nat ensures !OccursAt(target, [c] + part, k) {
      NoneEarlier(c, part, target, k);
    }
    assert !Occurs(target, [c] + part);
  }

  lemma FirstPartGrows(c: char, parts: seq<string>, target: string)
    requires |parts| > 1 && Leftmost(parts, target) && !OccursAt(target, [c] + (parts[0] + target), 0)
    ensures Leftmost([[c] + parts[0]] + parts[1..], target)
  {
    hide OccursAt, Occurs;
    var longer := [[c] + parts[0]] + parts[1..];
    NoneEarlier(c, parts[0] + target, target, |parts[0]|);
    assert [c] + (parts[0] + target) == longer[0] + target;
    forall i, k: nat | 0 <= i < |longer| - 1 && k < |longer[i]| ensures !OccursAt(target, longer[i] + target, k) {
      assert i > 0 ==> longer[i] == parts[i];
    }
    assert longer[|longer| - 1] == parts[|parts| - 1];
  }

  lemma LongerPartIsLeftmost(text: string, parts: seq<string>, target: string)
    requires target != "" && text != "" && parts != [] && !(target <= text) && Leftmost(parts, target)
    requires if |parts| == 1 then text[1..] == parts[0] else parts[0] + target <= text[1..]
    ensures Leftmost([[text[0]] + parts[0]] + parts[1..], target)
  {
    hide Leftmost;
    if |parts| == 1 {
      BeginsNoOccurrence(text, [text[0]] + parts[0], target);
      assert parts == [parts[0]];
      OnlyPartGrows(text[0], parts[0], target);
      assert [[text[0]] + parts[0]] + parts[1..] == [[text[0]] + parts[0]];
    } else {
      BeginsNoOccurrence(text, [text[0]] + (parts[0] + target), target);
      FirstPartGrows(text[0], parts, target);
    }
  }

  lemma {:induction false} NoSecretNoChange(text: string, secrets: seq<string>, m: string)
    requires "" !in secrets && forall x :: x in secrets ==> !Occurs(x, text)
    ensures ReplaceAll(text, secrets, m) == text
  {
    if secrets != [] {
      var n := |secrets| - 1;
      NoSecretNoChange(text, secrets[..n], m);
      NothingToReplace(text, secrets[n], m);
    }
  }

  // ---------- redact_mapping ----------

  datatype Json = Obj(fields: map<string, Json>) | Arr(items: seq<Json>) | Text(text: string) | Num(value: real)

  /** The walk, with the iteration order its registry happens to have. */
  function Walk(j: Json, secrets: seq<string>): Json
    requires "" !in secrets
  {
    match j
    case Obj(fields) => Obj(map key | key in fields :: Walk(fields[key], secrets))
    case Arr(items) => Arr(seq(|items|, i requires 0 <= i < |items| => Walk(items[i], secrets)))
    case Text(text) => Text(ReplaceAll(text, secrets, REDACTED))
    case Num(_) => j
  }

  /** The value with every text leaf blanked: structure, keys and non-strings. */
  function Skeleton(j: Json): Json {
    match j
    case Obj(fields) => Obj(map key | key in fields :: Skeleton(fields[key]))
    case Arr(items) => Arr(seq(|items|, i requires 0 <= i < |items| => Skeleton(items[i])))
    case Text(_) => Text("")
    case Num(_) => j
  }

  /** No text leaf contains `x`. */
  ghost predicate Free(x: string, j: Json) {
    match j
    case Obj(fields) => forall key :: key in fields ==> Free(x, fields[key])
    case Arr(items) => forall i :: 0 <= i < |items| ==> Free(x, items[i])
    case Text(text) => !Occurs(x, text)
    case Num(_) => true
  }

  /** The walk keeps structure, keys and non-strings, and clears every separate registered secret
      from every text leaf. */
  lemma {:induction false} MappingIsRedacted(j: Json, secrets: seq<string>, x: string)
    requires "" !in secrets && x in secrets && Separate(x, REDACTED)
    ensures Skeleton(Walk(j, secrets)) == Skeleton(j)
    ensures Free(x, Walk(j, secrets))
  {
    match j
    case Obj(fields) =>
      forall key | key in fields
        ensures Skeleton(Walk(fields[key], secrets)) == Skeleton(fields[key]) && Free(x, Walk(fields[key], secrets))
      {
        MappingIsRedacted(fields[key], secrets, x);
      }
    case Arr(items) =>
      forall i | 0 <= i < |items|
        ensures Skeleton(Walk(items[i], secrets)) == Skeleton(items[i]) && Free(x, Walk(items[i], secrets))
      {
        MappingIsRedacted(items[i], secrets, x);
      }
    case Text(text) => SeparateSecretIsHidden(x, text, secrets, REDACTED);
    case Num(_) =>
  }

  /** A value none of whose texts holds a secret comes out as it was. */
  lemma {:induction false} CleanMappingIsKept(j: Json, secrets: seq<string>)
    requires "" !in secrets && forall x :: x in secrets ==> Free(x, j)
    ensures Walk(j, secrets) == j
  {
    match j
    case Obj(fields) =>
      forall key | key in fields ensures Walk(fields[key], secrets) == fields[key] {
        forall x | x in secrets ensures Free(x, fields[key]) {
          assert Free(x, j);
        }
        CleanMappingIsKept(fields[key], secrets);
      }
    case Arr(items) =>
      forall i | 0 <= i < |items| ensures Walk(items[i], secrets) == items[i] {
        forall x | x in secrets ensures Free(x, items[i]) {
          assert Free(x, j);
        }
        CleanMappingIsKept(items[i], secrets);
      }
    case Text(text) =>
      forall x | x in secrets ensures !Occurs(x, text) {
        assert Free(x, j);
      }
      NoSecretNoChange(text, secrets, REDACTED);
    case Num(_) =>
  }
}
