/** Discovery of the viewer's interpreter: of all Tk interpreter names the
    local process can see, keep those that contain a known viewer name. */
module Discovery {
  import opened Text

  /** The viewer identifiers. `Interface.__init__` holds them in a set; the order in
      which they are tried does not change the result (`MatchCountOrder`). */
  const BaseNames: seq<string> := ["verdi", "nWave"]

  /** How many of `names` occur in `interp` as a substring. */
  function MatchCount(interp: string, names: seq<string>): (n: nat)
    ensures n <= |names|
  {
    if names == [] then 0
    else MatchCount(interp, names[..|names| - 1]) + (if Contains(interp, names[|names| - 1]) then 1 else 0)
  }

  function Repeat(x: string, n: nat): (r: seq<string>)
    ensures |r| == n
    ensures forall i :: 0 <= i < n ==> r[i] == x
  {
    if n == 0 then [] else Repeat(x, n - 1) + [x]
  }

  /** The candidate list for a scan: each scanned name, in scan order, once
      per base name it contains. */
  function CandidatesOf(interps: seq<string>): seq<string> {
    if interps == [] then []
    else
      var last := interps[|interps| - 1];
      CandidatesOf(interps[..|interps| - 1]) + Repeat(last, MatchCount(last, BaseNames))
  }

  /** The scan in `Interface.__init__`: for each interpreter name, for
      each base name, append the interpreter name when it contains the base
      name. */
  method FindCandidates(interps: seq<string>) returns (candidates: seq<string>)
    ensures candidates == CandidatesOf(interps)
  {
    candidates := [];
    var i := 0;
    while i < |interps|
      invariant 0 <= i <= |interps|
      invariant candidates == CandidatesOf(interps[..i])
    {
      var interp := interps[i];
      var j := 0;
      while j < |BaseNames|
        invariant 0 <= j <= |BaseNames|
        invariant candidates == CandidatesOf(interps[..i]) + Repeat(interp, MatchCount(interp, BaseNames[..j]))
      {
        if Contains(interp, BaseNames[j]) {
          candidates := candidates + [interp];
        }
        assert BaseNames[..j + 1][..j] == BaseNames[..j];
        j := j + 1;
      }
      assert BaseNames[..j] == BaseNames;
      assert interps[..i + 1][..i] == interps[..i];
      i := i + 1;
    }
    assert interps[..i] == interps;
  }

  /** The count for the two viewer names, written out. */
  lemma MatchCountBaseNames(interp: string)
    ensures MatchCount(interp, BaseNames)
         == (if Contains(interp, "verdi") then 1 else 0) + (if Contains(interp, "nWave") then 1 else 0)
  {
  }

  /** Trying the base names in the other order gives the same count, so the
      set's iteration order is immaterial. */
  lemma MatchCountOrder(interp: string)
    ensures MatchCount(interp, ["nWave", "verdi"]) == MatchCount(interp, BaseNames)
  {
  }

  /** Discovery runs over a scan piece by piece, so scan order is kept. */
  lemma {:induction false} CandidatesAppend(a: seq<string>, b: seq<string>)
    ensures CandidatesOf(a + b) == CandidatesOf(a) + CandidatesOf(b)
  {
    if b == [] {
      assert a + b == a;
    } else {
      var b' := b[..|b| - 1];
      assert (a + b)[..|a + b| - 1] == a + b';
      CandidatesAppend(a, b');
    }
  }

  lemma {:induction false} RepeatCount(y: string, n: nat, x: string)
    ensures multiset(Repeat(y, n))[x] == if x == y then n else 0
  {
    if n > 0 {
      RepeatCount(y, n - 1, x);
    }
  }

  /** Each name occurs in the candidates as often as it was scanned times the
      number of base names it contains. */
  lemma {:induction false} CandidateCount(interps: seq<string>, x: string)
    ensures multiset(CandidatesOf(interps))[x] == multiset(interps)[x] * MatchCount(x, BaseNames)
  {
    if interps != [] {
      var init, last := interps[..|interps| - 1], interps[|interps| - 1];
      assert interps == init + [last];
      CandidateCount(init, x);
      CountStep(CandidatesOf(init), Repeat(last, MatchCount(last, BaseNames)), init, last, x,
                MatchCount(x, BaseNames), MatchCount(last, BaseNames));
    }
  }

  /** One scan step: `init` gave `m` candidates per copy of `x`; scanning
      `last`, which adds `mLast` copies of itself, keeps that ratio. */
  lemma CountStep(before: seq<string>, hits: seq<string>, init: seq<string>, last: string, x: string,
                  m: nat, mLast: nat)
    requires hits == Repeat(last, mLast)
    requires multiset(before)[x] == multiset(init)[x] * m
    requires x == last ==> mLast == m
    ensures multiset(before + hits)[x] == multiset(init + [last])[x] * m
  {
    RepeatCount(last, mLast, x);
    assert multiset(before + hits) == multiset(before) + multiset(hits);
    assert multiset(init + [last]) == multiset(init) + multiset{last};
    var k := multiset(init)[x];
    var scanned := multiset(init + [last])[x];
    assert scanned == if x == last then k + 1 else k;
    ScaleStep(multiset(before)[x], multiset(hits)[x], k, m, x == last);
    assert scanned * m == if x == last then (k + 1) * m else k * m;
  }

  /** The arithmetic of one scan step: `k` copies give `k * m`, one more
      copy adds `m`. */
  lemma ScaleStep(before: nat, added: nat, k: nat, m: nat, isLast: bool)
    requires before == k * m
    requires added == if isLast then m else 0
    ensures before + added == (if isLast then k + 1 else k) * m
  {
    if isLast {
      assert (k + 1) * m == k * m + m;
    }
  }

  /** A name is a candidate exactly when it was scanned and contains a
      viewer name. */
  lemma CandidateMembership(interps: seq<string>, x: string)
    ensures x in CandidatesOf(interps) <==> x in interps && MatchCount(x, BaseNames) > 0
  {
    CandidateCount(interps, x);
    var k, m := multiset(interps)[x], MatchCount(x, BaseNames);
    assert k > 0 && m > 0 ==> k * m > 0;
  }
}
