/** The `*`/`?` matcher, written once for known_hosts patterns and once more for
    `Include` file names. Both walk the text with one remembered star; `Matches` says
    what the two wildcards mean. */
module Glob {

  datatype Star = NoStar | At(pos: nat)

  /** What the wildcards mean: `*` is any run of characters, `?` any one of them. */
  predicate Matches(p: string, t: string)
    decreases |p| + |t|
  {
    if p == "" then t == ""
    else if p[0] == '*' then Matches(p[1..], t) || (t != "" && Matches(p, t[1..]))
    else t != "" && Fits(p[0], t[0]) && Matches(p[1..], t[1..])
  }

  /** The test the loops make before they look for a star. */
  predicate Fits(pc: char, tc: char) {
    pc == '?' || pc == tc
  }

  predicate AllStars(p: string) {
    forall i | 0 <= i < |p| :: p[i] == '*'
  }

  /** Where the two loops are: two cursors, the last star, and what it has swallowed. */
  predicate Here(p: string, t: string, pi: nat, ti: nat, star: Star, back: nat) {
    && pi <= |p| && ti <= |t| && back <= ti
    && (star.At? ==> star.pos < pi && p[star.pos] == '*')
  }

  /** The answer the loops reach from a position. */
  predicate Walk(p: string, t: string, pi: nat, ti: nat, star: Star, back: nat)
    requires Here(p, t, pi, ti, star, back)
    decreases if star.At? then |p| - star.pos else |p| + 1, |t| - back, |t| - ti
  {
    if ti == |t| then AllStars(p[pi..])
    else if pi < |p| && Fits(p[pi], t[ti]) then Walk(p, t, pi + 1, ti + 1, star, back)
    else if pi < |p| && p[pi] == '*' then Walk(p, t, pi + 1, ti, At(pi), ti)
    else if star.At? then Walk(p, t, star.pos + 1, back + 1, star, back + 1)
    else false
  }

  predicate Accepts(p: string, t: string) {
    Walk(p, t, 0, 0, NoStar, 0)
  }

  /** `glob_match`, with the star kept as an index and the largest index as "none". */
  method GlobMatch(pattern: string, text: string) returns (r: bool)
    ensures r == Accepts(pattern, text)
  {
    var none: nat := |pattern|;
    var pi: nat, ti: nat := 0, 0;
    var star: nat, back: nat := none, 0;
    while ti < |text|
      invariant pi <= |pattern| && ti <= |text| && back <= ti && star <= none
      invariant Here(pattern, text, pi, ti, if star == none then NoStar else At(star), back)
      invariant Walk(pattern, text, pi, ti, if star == none then NoStar else At(star), back)
             == Accepts(pattern, text)
      decreases |pattern| + 1 - (if star == none then 0 else star + 1), |text| - back, |text| - ti
    {
      if pi < |pattern| && (pattern[pi] == '?' || pattern[pi] == text[ti]) {
        pi := pi + 1;
        ti := ti + 1;
      } else if pi < |pattern| && pattern[pi] == '*' {
        star := pi;
        back := ti;
        pi := pi + 1;
      } else if star != none {
        pi := star + 1;
        back := back + 1;
        ti := back;
      } else {
        return false;
      }
    }
    ghost var rest := pi;
    while pi < |pattern| && pattern[pi] == '*'
      invariant rest <= pi <= |pattern|
      invariant AllStars(pattern[rest..]) == AllStars(pattern[pi..])
    {
      StarHead(pattern[rest..], pattern[pi..]);
      assert pattern[pi..][1..] == pattern[pi + 1..];
      pi := pi + 1;
    }
    r := pi == |pattern|;
    assert pi < |pattern| ==> pattern[pi..][0] != '*';
  }

  lemma StarHead(whole: string, p: string)
    requires p != "" && p[0] == '*' && AllStars(whole) == AllStars(p)
    ensures AllStars(whole) == AllStars(p[1..])
  {
    assert p == [p[0]] + p[1..];
    if AllStars(p[1..]) {
      forall i | 0 <= i < |p| ensures p[i] == '*' {
        assert i > 0 ==> p[i] == p[1..][i - 1];
      }
    }
  }

  /** `wildcard_match`: the same walk with the star as an option and the tail tested at once. */
  method WildcardMatch(pattern: string, name: string) returns (r: bool)
    ensures r == Accepts(pattern, name)
  {
    var pi: nat, ni: nat := 0, 0;
    var star, matched: nat := NoStar, 0;
    while ni < |name|
      invariant Here(pattern, name, pi, ni, star, matched)
      invariant Walk(pattern, name, pi, ni, star, matched) == Accepts(pattern, name)
      decreases if star.At? then |pattern| - star.pos else |pattern| + 1, |name| - matched, |name| - ni
    {
      if pi < |pattern| && (pattern[pi] == '?' || pattern[pi] == name[ni]) {
        pi, ni := pi + 1, ni + 1;
      } else if pi < |pattern| && pattern[pi] == '*' {
        star, matched := At(pi), ni;
        pi := pi + 1;
      } else if star.At? {
        pi := star.pos + 1;
        matched := matched + 1;
        ni := matched;
      } else {
        return false;
      }
    }
    r := forall i | pi <= i < |pattern| :: pattern[i] == '*';
    assert r == AllStars(pattern[pi..]) by {
      assert forall i | pi <= i < |pattern| :: pattern[i] == pattern[pi..][i - pi];
    }
  }

  // ---- What the wildcards mean, piece by piece --------------------------------

  predicate Aligned(p: string, t: string) {
    |p| == |t| && forall i | 0 <= i < |p| :: Fits(p[i], t[i])
  }

  lemma {:induction false} AlignedThen(p: string, t: string, p': string, t': string)
    requires Aligned(p, t) && Matches(p', t')
    ensures Matches(p + p', t + t')
  {
    if p == "" {
      assert p + p' == p' && t + t' == t';
    } else {
      AlignedThen(p[1..], t[1..], p', t');
      assert (p + p')[1..] == p[1..] + p' && (t + t')[1..] == t[1..] + t';
      assert Fits(p[0], t[0]);
      if p[0] == '*' {
        // One step of the star takes the character, another lets go.
        assert Matches((p + p')[1..], (t + t')[1..]);
        assert Matches(p + p', (t + t')[1..]);
      }
    }
  }

  lemma {:induction false} StarTakesMore(p: string, t: string, k: nat)
    requires p != "" && p[0] == '*' && k <= |t| && Matches(p, t[k..])
    ensures Matches(p, t)
  {
    if k == 0 {
      assert t[k..] == t;
    } else {
      assert t[1..][k - 1..] == t[k..];
      StarTakesMore(p, t[1..], k - 1);
    }
  }

  lemma {:induction false} StarsMatchNothing(p: string)
    ensures AllStars(p) <==> Matches(p, "")
  {
    if p != "" {
      StarsMatchNothing(p[1..]);
      if AllStars(p[1..]) && p[0] == '*' {
        StarHead(p, p) by { assert forall i | 1 <= i < |p| :: p[i] == p[1..][i - 1]; }
      }
    }
  }

  /** A star-free stretch only ever matches the characters under it. */
  lemma {:induction false} PlainThen(p: string, t: string, n: nat)
    requires n <= |p| && '*' !in p[..n]
    ensures Matches(p, t) ==> n <= |t| && Aligned(p[..n], t[..n]) && Matches(p[n..], t[n..])
  {
    if n == 0 {
      assert p[n..] == p && t[n..] == t;
    } else if Matches(p, t) {
      assert p[0] == p[..n][0] && p[1..][..n - 1] == p[..n][1..];
      PlainThen(p[1..], t[1..], n - 1);
      assert p[1..][n - 1..] == p[n..] && t[1..][n - 1..] == t[n..];
      forall i | 0 <= i < n ensures Fits(p[..n][i], t[..n][i]) {
        assert i > 0 ==> p[..n][i] == p[1..][..n - 1][i - 1] && t[..n][i] == t[1..][..n - 1][i - 1];
      }
    }
  }

  /** A star before a plain stretch and another star may as well stop at the first fit. */
  lemma {:induction false} LeftmostIsEnough(p: string, t: string, n: nat)
    requires 0 < n < |p| && p[0] == '*' && '*' !in p[1..n] && p[n] == '*'
    requires n - 1 <= |t| && Aligned(p[1..n], t[..n - 1]) && Matches(p, t)
    ensures Matches(p[n..], t[n - 1..])
  {
    var k := StarStops(p, t);
    assert p[1..][..n - 1] == p[1..n];
    PlainThen(p[1..], t[k..], n - 1);
    assert p[1..][n - 1..] == p[n..] && t[k..][n - 1..] == t[n - 1..][k..];
    StarTakesMore(p[n..], t[n - 1..], k);
  }

  lemma {:induction false} StarStops(p: string, t: string) returns (k: nat)
    requires p != "" && p[0] == '*' && Matches(p, t)
    ensures k <= |t| && Matches(p[1..], t[k..])
  {
    if Matches(p[1..], t) {
      k := 0;
      assert t[0..] == t;
    } else {
      var k' := StarStops(p, t[1..]);
      k := k' + 1;
      assert t[1..][k'..] == t[k..];
    }
  }

  // ---- The walk is sound, and complete while text and pattern share no star ----

  /** What the walk still has to decide: from the remembered star, or from here. */
  predicate Goal(p: string, t: string, pi: nat, ti: nat, star: Star, back: nat)
    requires Here(p, t, pi, ti, star, back)
  {
    if star.At? then Matches(p[star.pos..], t[back..]) else Matches(p[pi..], t[ti..])
  }

  /** The stretch since the last star lies over the text since `back`. */
  predicate Anchored(p: string, t: string, pi: nat, ti: nat, star: Star, back: nat) {
    && Here(p, t, pi, ti, star, back)
    && (star.At? ==> Aligned(p[star.pos + 1..pi], t[back..ti]))
  }

  /** A match from here is a match from the remembered star. */
  lemma FromHere(p: string, t: string, pi: nat, ti: nat, star: Star, back: nat)
    requires Anchored(p, t, pi, ti, star, back) && Matches(p[pi..], t[ti..])
    ensures Goal(p, t, pi, ti, star, back)
  {
    if star.At? {
      AlignedThen(p[star.pos + 1..pi], t[back..ti], p[pi..], t[ti..]);
      assert p[star.pos + 1..pi] + p[pi..] == p[star.pos..][1..];
      assert t[back..ti] + t[ti..] == t[back..];
    }
  }

  lemma Extend(p: string, t: string, pi: nat, ti: nat, star: Star, back: nat)
    requires Anchored(p, t, pi, ti, star, back) && pi < |p| && ti < |t| && Fits(p[pi], t[ti])
    ensures Anchored(p, t, pi + 1, ti + 1, star, back)
  {
    if star.At? {
      assert p[star.pos + 1..pi + 1] == p[star.pos + 1..pi] + [p[pi]];
      assert t[back..ti + 1] == t[back..ti] + [t[ti]];
    }
  }

  lemma {:induction false} WalkIsSound(p: string, t: string, pi: nat, ti: nat, star: Star, back: nat)
    requires Anchored(p, t, pi, ti, star, back) && Walk(p, t, pi, ti, star, back)
    ensures Goal(p, t, pi, ti, star, back)
    decreases if star.At? then |p| - star.pos else |p| + 1, |t| - back, |t| - ti
  {
    if ti == |t| {
      StarsMatchNothing(p[pi..]);
      assert t[ti..] == "";
      FromHere(p, t, pi, ti, star, back);
    } else if pi < |p| && Fits(p[pi], t[ti]) {
      Extend(p, t, pi, ti, star, back);
      WalkIsSound(p, t, pi + 1, ti + 1, star, back);
      if star.NoStar? {
        AlignedThen(p[pi..pi + 1], t[ti..ti + 1], p[pi + 1..], t[ti + 1..]);
        assert p[pi..pi + 1] + p[pi + 1..] == p[pi..] && t[ti..ti + 1] + t[ti + 1..] == t[ti..];
      }
    } else if pi < |p| && p[pi] == '*' {
      WalkIsSound(p, t, pi + 1, ti, At(pi), ti);
      FromHere(p, t, pi, ti, star, back);
    } else {
      WalkIsSound(p, t, star.pos + 1, back + 1, star, back + 1);
      assert t[back..][1..] == t[back + 1..];
    }
  }

  predicate ShareNoStar(p: string, t: string) {
    '*' !in p || '*' !in t
  }

  /** A character that fits leaves the question where it was, a character on. */
  lemma FitsOn(p: string, t: string, pi: nat, ti: nat, star: Star, back: nat)
    requires Anchored(p, t, pi, ti, star, back) && ShareNoStar(p, t) && pi < |p| && ti < |t| && Fits(p[pi], t[ti])
    requires star.At? ==> '*' !in p[star.pos + 1..pi]
    requires Goal(p, t, pi, ti, star, back)
    ensures Anchored(p, t, pi + 1, ti + 1, star, back) && Goal(p, t, pi + 1, ti + 1, star, back)
    ensures star.At? ==> '*' !in p[star.pos + 1..pi + 1]
  {
    hide Matches, Aligned;
    assert p[pi] in p && t[ti] in t;
    Extend(p, t, pi, ti, star, back);
    if star.NoStar? {
      assert p[pi..][..1] == [p[pi]];
      PlainThen(p[pi..], t[ti..], 1);
      assert p[pi..][1..] == p[pi + 1..] && t[ti..][1..] == t[ti + 1..];
    } else {
      assert p[star.pos + 1..pi + 1] == p[star.pos + 1..pi] + [p[pi]];
    }
  }

  /** At another star the question may be asked from there. */
  lemma StarAnew(p: string, t: string, pi: nat, ti: nat, star: Star, back: nat)
    requires Anchored(p, t, pi, ti, star, back) && pi < |p| && p[pi] == '*'
    requires star.At? ==> '*' !in p[star.pos + 1..pi]
    requires Goal(p, t, pi, ti, star, back)
    ensures Anchored(p, t, pi + 1, ti, At(pi), ti) && Goal(p, t, pi + 1, ti, At(pi), ti)
  {
    hide Matches;
    if star.At? {
      var n := pi - star.pos;
      assert p[star.pos..][1..n] == p[star.pos + 1..pi] && t[back..][..n - 1] == t[back..ti];
      LeftmostIsEnough(p[star.pos..], t[back..], n);
      assert p[star.pos..][n..] == p[pi..] && t[back..][n - 1..] == t[ti..];
    }
  }

  lemma {:induction false} WalkIsComplete(p: string, t: string, pi: nat, ti: nat, star: Star, back: nat)
    requires Anchored(p, t, pi, ti, star, back) && ShareNoStar(p, t)
    requires star.At? ==> '*' !in p[star.pos + 1..pi]
    requires Goal(p, t, pi, ti, star, back)
    ensures Walk(p, t, pi, ti, star, back)
    decreases if star.At? then |p| - star.pos else |p| + 1, |t| - back, |t| - ti
  {
    hide Matches, Aligned, AllStars;
    if ti == |t| {
      AtTheEnd(p, t, pi, star, back);
    } else if pi < |p| && Fits(p[pi], t[ti]) {
      FitsOn(p, t, pi, ti, star, back);
      WalkIsComplete(p, t, pi + 1, ti + 1, star, back);
    } else if pi < |p| && p[pi] == '*' {
      StarAnew(p, t, pi, ti, star, back);
      WalkIsComplete(p, t, pi + 1, ti, At(pi), ti);
    } else if star.At? {
      StarMustMove(p, t, pi, ti, star.pos, back);
      assert p[star.pos + 1..star.pos + 1] == [] && t[back + 1..back + 1] == [];
      NothingAligned();
      WalkIsComplete(p, t, star.pos + 1, back + 1, star, back + 1);
    } else {
      StuckIsNoMatch(p[pi..], t[ti..]);
    }
  }

  lemma NothingAligned()
    ensures Aligned("", "")
  {
  }

  lemma StuckIsNoMatch(p: string, t: string)
    requires t != "" && (p != "" ==> p[0] != '*' && !Fits(p[0], t[0]))
    ensures !Matches(p, t)
  {
  }

  lemma AtTheEnd(p: string, t: string, pi: nat, star: Star, back: nat)
    requires Anchored(p, t, pi, |t|, star, back)
    requires star.At? ==> '*' !in p[star.pos + 1..pi]
    requires Goal(p, t, pi, |t|, star, back)
    ensures AllStars(p[pi..])
  {
    if star.At? {
      var n := pi - star.pos - 1;
      var k := StarStops(p[star.pos..], t[back..]);
      assert p[star.pos..][1..] == p[star.pos + 1..];
      assert p[star.pos + 1..][..n] == p[star.pos + 1..pi];
      PlainThen(p[star.pos + 1..], t[back..][k..], n);
      assert p[star.pos + 1..][n..] == p[pi..];
      assert t[back..][k..][n..] == "";
    } else {
      assert t[|t|..] == "";
    }
    StarsMatchNothing(p[pi..]);
  }

  lemma StarMustMove(p: string, t: string, pi: nat, ti: nat, s: nat, back: nat)
    requires Anchored(p, t, pi, ti, At(s), back) && '*' !in p[s + 1..pi] && ti < |t|
    requires pi < |p| ==> p[pi] != '*' && !Fits(p[pi], t[ti])
    requires Goal(p, t, pi, ti, At(s), back)
    ensures Goal(p, t, s + 1, back + 1, At(s), back + 1)
  {
    assert p[s..][1..] == p[s + 1..] && t[back..][1..] == t[back + 1..];
    var n := pi - s - 1;
    assert p[s + 1..][..n] == p[s + 1..pi];
    PlainThen(p[s + 1..], t[back..], n);
    assert p[s + 1..][n..] == p[pi..] && t[back..][n..] == t[ti..];
  }

  // ---- Main results -------------------------------------------------------------

  /** Whatever is accepted does match. */
  lemma AcceptedMatches(p: string, t: string)
    requires Accepts(p, t)
    ensures Matches(p, t)
  {
    WalkIsSound(p, t, 0, 0, NoStar, 0);
    assert p[0..] == p && t[0..] == t;
  }

  /** With no star in common the loops decide exactly what the wildcards mean. */
  lemma AcceptsIsMatches(p: string, t: string)
    requires ShareNoStar(p, t)
    ensures Accepts(p, t) <==> Matches(p, t)
  {
    assert p[0..] == p && t[0..] == t;
    if Matches(p, t) {
      WalkIsComplete(p, t, 0, 0, NoStar, 0);
    } else if Accepts(p, t) {
      AcceptedMatches(p, t);
    }
  }

  lemma {:induction false} AlignedIsWalked(p: string, t: string, n: nat)
    requires n <= |p| && n <= |t| && forall i | 0 <= i < n :: Fits(p[i], t[i])
    ensures Accepts(p, t) == Walk(p, t, n, n, NoStar, 0)
  {
    if n > 0 {
      AlignedIsWalked(p, t, n - 1);
    }
  }

  /** Every string matches itself taken as a pattern, wildcards in it or not. */
  lemma Reflexive(x: string)
    ensures Accepts(x, x) && Matches(x, x)
  {
    AlignedIsWalked(x, x, |x|);
    AcceptedMatches(x, x);
  }

  function Questions(n: nat): (q: string)
    ensures |q| == n && forall i | 0 <= i < n :: q[i] == '?'
  {
    seq(n, _ => '?')
  }

  lemma FirstStar(s: string) returns (k: nat)
    requires '*' in s
    ensures k < |s| && s[k] == '*' && '*' !in s[..k]
  {
    k := 0;
    while s[k] != '*'
      decreases |s| - k
      invariant k < |s| && '*' !in s[..k]
      invariant exists i :: k <= i < |s| && s[i] == '*'
    {
      k := k + 1;
    }
  }

  lemma LastStar(s: string) returns (k: nat)
    requires '*' in s
    ensures k < |s| && s[k] == '*' && '*' !in s[k + 1..]
  {
    k := |s| - 1;
    while s[k] != '*'
      decreases k
      invariant k < |s| && '*' !in s[k + 1..]
      invariant exists i :: 0 <= i <= k && s[i] == '*'
    {
      assert s[k..] == [s[k]] + s[k + 1..];
      k := k - 1;
    }
  }

  /** For a text holding a star, a pattern that matches it and is refused: the star in the
      pattern is taken for the star in the text and never remembered. */
  lemma RefusedOnText(t: string) returns (p: string)
    requires '*' in t
    ensures Matches(p, t) && !Accepts(p, t)
  {
    var k := FirstStar(t);
    var tail := Questions(|t| - k);
    p := t[..k] + ("*" + tail);
    AlignedThen(tail, t[k..], "", "");
    assert tail + "" == tail && t[k..] + "" == t[k..] && ("*" + tail)[1..] == tail;
    AlignedThen(t[..k], t[..k], "*" + tail, t[k..]);
    assert t[..k] + t[k..] == t;
    AlignedIsWalked(p, t, |t|);
    assert p[|t|..][0] == '?';
  }

  lemma {:induction false} PlainNeedsItsLength(p: string, t: string, pi: nat, ti: nat)
    requires pi <= |p| && ti <= |t| && '*' !in p[pi..] && Walk(p, t, pi, ti, NoStar, 0)
    ensures |p| - pi == |t| - ti
    decreases |t| - ti
  {
    assert pi < |p| ==> p[pi] in p[pi..];
    if ti < |t| {
      assert p[pi + 1..] == p[pi..][1..];
      PlainNeedsItsLength(p, t, pi + 1, ti + 1);
    }
  }

  /** For a pattern holding a star, a text that it matches and is refused. */
  lemma RefusedByPattern(p: string) returns (t: string)
    requires '*' in p
    ensures Matches(p, t) && !Accepts(p, t)
  {
    var k := LastStar(p);
    t := p[..k] + ("*x" + p[k + 1..]);
    assert ("*x" + p[k + 1..])[2..] == p[k + 1..] && p[k..][1..] == p[k + 1..];
    Reflexive(p[k + 1..]);
    StarTakesMore(p[k..], "*x" + p[k + 1..], 2);
    AlignedThen(p[..k], p[..k], p[k..], "*x" + p[k + 1..]);
    assert p[..k] + p[k..] == p;
    AlignedIsWalked(p, t, k + 1);
    if Accepts(p, t) {
      PlainNeedsItsLength(p, t, k + 1, k + 1);
    }
  }

  /** The texts every pattern is decided correctly on are exactly those without a star. */
  lemma DecidedTexts(t: string)
    ensures (forall p: string :: Accepts(p, t) <==> Matches(p, t)) <==> '*' !in t
  {
    if '*' in t {
      var p := RefusedOnText(t);
      assert !(Accepts(p, t) <==> Matches(p, t));
    } else {
      forall p: string ensures Accepts(p, t) <==> Matches(p, t) {
        AcceptsIsMatches(p, t);
      }
    }
  }

  /** The patterns decided correctly on every text are exactly those without a star. */
  lemma DecidedPatterns(p: string)
    ensures (forall t: string :: Accepts(p, t) <==> Matches(p, t)) <==> '*' !in p
  {
    if '*' in p {
      var t := RefusedByPattern(p);
      assert !(Accepts(p, t) <==> Matches(p, t));
    } else {
      forall t: string ensures Accepts(p, t) <==> Matches(p, t) {
        AcceptsIsMatches(p, t);
      }
    }
  }
}
