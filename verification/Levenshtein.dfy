/** The command suggester's edit distance: the in-place table, the distance it computes, and what that distance
    means. */
module Levenshtein {
  import opened Options

  function Min(a: nat, b: nat): nat { if a <= b then a else b }

  function Min3(a: nat, b: nat, c: nat): nat { Min(a, Min(b, c)) }

  function Front(s: string): string requires |s| > 0 { s[..|s| - 1] }

  function Last(s: string): char requires |s| > 0 { s[|s| - 1] }

  function Change(x: char, y: char): nat { if x == y then 0 else 1 }

  /** The recurrence over all three choices, with a free diagonal on equal characters. */
  function Distance(a: string, b: string): nat
    decreases |a| + |b|
  {
    if a == "" then |b|
    else if b == "" then |a|
    else Min3(Distance(Front(a), b) + 1, Distance(a, Front(b)) + 1,
              Distance(Front(a), Front(b)) + Change(Last(a), Last(b)))
  }

  // --- edits ---

  function Inserted(a: string, i: nat, c: char): string
    requires i <= |a|
  {
    a[..i] + [c] + a[i..]
  }

  function Deleted(a: string, i: nat): string
    requires i < |a|
  {
    a[..i] + a[i + 1..]
  }

  function Substituted(a: string, i: nat, c: char): string
    requires i < |a|
  {
    a[..i] + [c] + a[i + 1..]
  }

  /** `b` comes from `a` by inserting, deleting or substituting one character. */
  ghost predicate OneEdit(a: string, b: string) {
    || (exists i, c :: 0 <= i <= |a| && b == Inserted(a, i, c))
    || (exists i :: 0 <= i < |a| && b == Deleted(a, i))
    || (exists i, c :: 0 <= i < |a| && b == Substituted(a, i, c))
  }

  /** A sequence of strings, each one edit from the one before. */
  ghost predicate IsPath(path: seq<string>, a: string, b: string) {
    && |path| > 0 && path[0] == a && path[|path| - 1] == b
    && forall i :: 0 <= i < |path| - 1 ==> OneEdit(path[i], path[i + 1])
  }

  // --- the distance is a metric ---

  lemma {:induction false} DistanceSymmetric(a: string, b: string)
    ensures Distance(a, b) == Distance(b, a)
    decreases |a| + |b|
  {
    if a != "" && b != "" {
      DistanceSymmetric(Front(a), b);
      DistanceSymmetric(a, Front(b));
      DistanceSymmetric(Front(a), Front(b));
    }
  }

  lemma {:induction false} LengthBounds(a: string, b: string)
    ensures Distance(a, b) <= |a| + |b|
    ensures |a| <= Distance(a, b) + |b| && |b| <= Distance(a, b) + |a|
    decreases |a| + |b|
  {
    if a != "" && b != "" {
      LengthBounds(Front(a), b);
      LengthBounds(a, Front(b));
      LengthBounds(Front(a), Front(b));
    }
  }

  lemma {:induction false} DistanceZero(a: string, b: string)
    ensures Distance(a, b) == 0 <==> a == b
    decreases |a| + |b|
  {
    if a != "" && b != "" {
      DistanceZero(Front(a), Front(b));
      assert a == Front(a) + [Last(a)] && b == Front(b) + [Last(b)];
    }
  }

  lemma {:induction false} Triangle(a: string, b: string, c: string)
    ensures Distance(a, c) <= Distance(a, b) + Distance(b, c)
    decreases |a| + |b| + |c|
  {
    if a == "" || b == "" || c == "" {
      LengthBounds(a, b);
      LengthBounds(b, c);
      LengthBounds(a, c);
    } else {
      TriangleStep(a, b, c);
    }
  }

  lemma {:induction false} TriangleStep(a: string, b: string, c: string)
    requires a != "" && b != "" && c != ""
    ensures Distance(a, c) <= Distance(a, b) + Distance(b, c)
    decreases |a| + |b| + |c|, 0
  {
    var a', b', c' := Front(a), Front(b), Front(c);
    if Distance(a, b) == Distance(a', b) + 1 {
      Triangle(a', b, c);
    } else if Distance(b, c) == Distance(b, c') + 1 {
      Triangle(a, b, c');
    } else if Distance(a, b) == Distance(a, b') + 1 {
      if Distance(b, c) == Distance(b', c) + 1 { Triangle(a, b', c); } else { Triangle(a, b', c'); }
    } else {
      if Distance(b, c) == Distance(b', c) + 1 { Triangle(a', b', c); } else { Triangle(a', b', c'); }
    }
  }

  // --- the distance counts edits ---

  lemma {:induction false} AppendBoth(a: string, b: string, s: string)
    ensures Distance(a + s, b + s) <= Distance(a, b)
    decreases |s|
  {
    if s == "" {
      assert a + s == a && b + s == b;
    } else {
      AppendBoth(a, b, Front(s));
      assert Front(a + s) == a + Front(s) && Front(b + s) == b + Front(s);
      assert Last(a + s) == Last(s) == Last(b + s);
    }
  }

  lemma {:induction false} InsertIsNear(a: string, i: nat, c: char)
    requires i <= |a|
    ensures Distance(a, Inserted(a, i, c)) <= 1
  {
    EditAtEnd(a[..i], c);
    AppendBoth(a[..i], a[..i] + [c], a[i..]);
    assert a == a[..i] + a[i..];
  }

  lemma {:induction false} DeleteIsNear(a: string, i: nat)
    requires i < |a|
    ensures Distance(a, Deleted(a, i)) <= 1
  {
    EditAtEnd(a[..i], a[i]);
    AppendBoth(a[..i] + [a[i]], a[..i], a[i + 1..]);
    assert a == a[..i] + [a[i]] + a[i + 1..];
  }

  lemma {:induction false} SubstituteIsNear(a: string, i: nat, c: char)
    requires i < |a|
    ensures Distance(a, Substituted(a, i, c)) <= 1
  {
    SubstituteAtEnd(a[..i], a[i], c);
    AppendBoth(a[..i] + [a[i]], a[..i] + [c], a[i + 1..]);
    assert a == a[..i] + [a[i]] + a[i + 1..];
  }

  lemma {:induction false} OneEditIsNear(a: string, b: string)
    requires OneEdit(a, b)
    ensures Distance(a, b) <= 1
  {
    if i, c :| 0 <= i <= |a| && b == Inserted(a, i, c) {
      InsertIsNear(a, i, c);
    } else if i :| 0 <= i < |a| && b == Deleted(a, i) {
      DeleteIsNear(a, i);
    } else if i, c :| 0 <= i < |a| && b == Substituted(a, i, c) {
      SubstituteIsNear(a, i, c);
    }
  }

  lemma {:induction false} EditAtEnd(s: string, c: char)
    ensures Distance(s, s + [c]) <= 1 && Distance(s + [c], s) <= 1
  {
    DistanceZero(s, s);
    assert Front(s + [c]) == s;
  }

  lemma {:induction false} SubstituteAtEnd(s: string, c: char, d: char)
    ensures Distance(s + [c], s + [d]) <= 1
  {
    DistanceZero(s, s);
    assert Front(s + [c]) == s == Front(s + [d]);
  }

  /** No way of editing `a` into `b` takes fewer single-character edits than the distance. */
  lemma {:induction false} NoShorterPath(path: seq<string>, a: string, b: string)
    requires IsPath(path, a, b)
    ensures Distance(a, b) <= |path| - 1
  {
    if |path| == 1 {
      DistanceZero(a, b);
    } else {
      NoShorterPath(path[1..], path[1], b);
      OneEditIsNear(path[0], path[1]);
      Triangle(a, path[1], b);
    }
  }

  lemma {:induction false} OneEditExtends(a: string, b: string, c: char)
    requires OneEdit(a, b)
    ensures OneEdit(a + [c], b + [c])
  {
    if i, d :| 0 <= i <= |a| && b == Inserted(a, i, d) {
      assert b + [c] == Inserted(a + [c], i, d);
    } else if i :| 0 <= i < |a| && b == Deleted(a, i) {
      assert b + [c] == Deleted(a + [c], i);
    } else if i, d :| 0 <= i < |a| && b == Substituted(a, i, d) {
      assert b + [c] == Substituted(a + [c], i, d);
    }
  }

  lemma {:induction false} LastEdits(s: string, c: char, d: char)
    ensures OneEdit(s + [c], s) && OneEdit(s, s + [c]) && OneEdit(s + [c], s + [d])
  {
    var t := s + [c];
    assert s == Deleted(t, |s|);
    assert t == Inserted(s, |s|, c);
    assert s + [d] == Substituted(t, |s|, d);
  }

  /** Append a character to every string of a path. */
  lemma {:induction false} ExtendPath(path: seq<string>, a: string, b: string, c: char) returns (extended: seq<string>)
    requires IsPath(path, a, b)
    ensures IsPath(extended, a + [c], b + [c]) && |extended| == |path|
  {
    extended := seq(|path|, i requires 0 <= i < |path| => path[i] + [c]);
    forall i | 0 <= i < |extended| - 1
      ensures OneEdit(extended[i], extended[i + 1])
    {
      OneEditExtends(path[i], path[i + 1], c);
    }
  }

  lemma {:induction false} AppendStep(path: seq<string>, a: string, b: string, b': string) returns (longer: seq<string>)
    requires IsPath(path, a, b) && OneEdit(b, b')
    ensures IsPath(longer, a, b') && |longer| == |path| + 1
  {
    longer := path + [b'];
    forall i | 0 <= i < |longer| - 1
      ensures OneEdit(longer[i], longer[i + 1])
    {
      if i < |path| - 1 { assert longer[i] == path[i] && longer[i + 1] == path[i + 1]; }
    }
  }

  lemma {:induction false} PrependStep(a': string, path: seq<string>, a: string, b: string)
    returns (longer: seq<string>)
    requires IsPath(path, a, b) && OneEdit(a', a)
    ensures IsPath(longer, a', b) && |longer| == |path| + 1
  {
    longer := [a'] + path;
    forall i | 0 <= i < |longer| - 1
      ensures OneEdit(longer[i], longer[i + 1])
    {
      if i > 0 { assert longer[i] == path[i - 1] && longer[i + 1] == path[i]; }
    }
  }

  lemma {:induction false} FrontEdits(s: string)
    requires s != ""
    ensures OneEdit(s, Front(s)) && OneEdit(Front(s), s)
  {
    assert Front(s) == Deleted(s, |s| - 1);
    assert s == Inserted(Front(s), |s| - 1, Last(s));
  }

  lemma {:induction false} InsertLast(path: seq<string>, a: string, b: string) returns (longer: seq<string>)
    requires b != "" && IsPath(path, a, Front(b))
    ensures IsPath(longer, a, b) && |longer| == |path| + 1
  {
    FrontEdits(b);
    longer := AppendStep(path, a, Front(b), b);
  }

  lemma {:induction false} DeleteLast(path: seq<string>, a: string, b: string) returns (longer: seq<string>)
    requires a != "" && IsPath(path, Front(a), b)
    ensures IsPath(longer, a, b) && |longer| == |path| + 1
  {
    FrontEdits(a);
    longer := PrependStep(a, path, Front(a), b);
  }

  lemma {:induction false} ChangeLast(path: seq<string>, a: string, b: string) returns (longer: seq<string>)
    requires a != "" && b != "" && IsPath(path, Front(a), Front(b))
    ensures IsPath(longer, a, b) && |longer| == |path| + Change(Last(a), Last(b))
  {
    assert a == Front(a) + [Last(a)] && b == Front(b) + [Last(b)];
    longer := ExtendPath(path, Front(a), Front(b), Last(a));
    if Last(a) != Last(b) {
      LastEdits(Front(b), Last(a), Last(b));
      longer := AppendStep(longer, a, Front(b) + [Last(a)], b);
    }
  }

  /** Some way of editing `a` into `b` takes exactly as many single-character edits as the distance. */
  lemma {:induction false} ShortestPath(a: string, b: string) returns (path: seq<string>)
    ensures IsPath(path, a, b) && |path| == Distance(a, b) + 1
    decreases |a| + |b|
  {
    if a == "" && b == "" {
      path := [""];
    } else if a == "" || (b != "" && Distance(a, b) == Distance(a, Front(b)) + 1) {
      path := ShortestPath(a, Front(b));
      path := InsertLast(path, a, b);
    } else if b == "" || Distance(a, b) == Distance(Front(a), b) + 1 {
      path := ShortestPath(Front(a), b);
      path := DeleteLast(path, a, b);
    } else {
      path := ShortestPath(Front(a), Front(b));
      path := ChangeLast(path, a, b);
    }
  }

  // --- the table ---

  /** On equal last characters the diagonal is optimal outright. */
  lemma {:induction false} DiagonalOnEqual(a: string, b: string)
    requires a != "" && b != "" && Last(a) == Last(b)
    ensures Distance(a, b) == Distance(Front(a), Front(b))
  {
    var a', b' := Front(a), Front(b);
    assert a == a' + [Last(a)] && b == b' + [Last(b)];
    EditAtEnd(b', Last(b));
    EditAtEnd(a', Last(a));
    Triangle(a', b, b');
    Triangle(a', a, b');
  }

  ghost predicate RowOk(dp: array2<nat>, a: string, b: string, x: int, upTo: int)
    requires 0 <= x <= |a| && upTo <= |b| && dp.Length0 == |a| + 1 && dp.Length1 == |b| + 1
    reads dp
  {
    forall y :: 0 <= y <= upTo ==> dp[x, y] == Distance(a[..x], b[..y])
  }

  method FillRow(dp: array2<nat>, a: string, b: string, i: nat)
    requires 1 <= i <= |a| && dp.Length0 == |a| + 1 && dp.Length1 == |b| + 1
    requires RowOk(dp, a, b, i - 1, |b|) && dp[i, 0] == i
    modifies dp
    ensures RowOk(dp, a, b, i, |b|)
    ensures forall x, y :: 0 <= x <= |a| && 0 <= y <= |b| && x != i ==> dp[x, y] == old(dp[x, y])
  {
    for j := 1 to |b| + 1
      invariant RowOk(dp, a, b, i - 1, |b|) && RowOk(dp, a, b, i, j - 1)
      invariant forall x, y :: 0 <= x <= |a| && 0 <= y <= |b| && x != i ==> dp[x, y] == old(dp[x, y])
    {
      CellValue(a, b, i, j);
      dp[i, j] := if a[i - 1] == b[j - 1] then dp[i - 1, j - 1]
                  else 1 + Min3(dp[i - 1, j], dp[i, j - 1], dp[i - 1, j - 1]);
    }
  }

  method Levenshtein(a: string, b: string) returns (d: nat)
    ensures d == Distance(a, b)
  {
    var m, n := |a|, |b|;
    var dp := new nat[m + 1, n + 1]((i, j) => if i == 0 then j else if j == 0 then i else 0);
    assert RowOk(dp, a, b, 0, n);
    for i := 1 to m + 1
      invariant RowOk(dp, a, b, i - 1, n)
      invariant forall x :: i <= x <= m ==> dp[x, 0] == x
    {
      FillRow(dp, a, b, i);
    }
    assert a[..m] == a && b[..n] == b;
    d := dp[m, n];
  }

  lemma {:induction false} CellValue(a: string, b: string, i: nat, j: nat)
    requires 1 <= i <= |a| && 1 <= j <= |b|
    ensures Distance(a[..i], b[..j])
            == if a[i - 1] == b[j - 1] then Distance(a[..i - 1], b[..j - 1])
               else 1 + Min3(Distance(a[..i - 1], b[..j]), Distance(a[..i], b[..j - 1]),
                             Distance(a[..i - 1], b[..j - 1]))
  {
    var p, q := a[..i], b[..j];
    assert Front(p) == a[..i - 1] && Front(q) == b[..j - 1];
    if a[i - 1] == b[j - 1] { DiagonalOnEqual(p, q); }
  }

  // --- the suggestion ---

  const MAX_SUGGESTED_DISTANCE: nat := 2

  /** The first candidate of least distance to `token`, if that distance is small enough. */
  ghost predicate IsSuggestion(token: string, candidates: seq<string>, r: Option<string>) {
    match r
    case None => forall c :: c in candidates ==> Distance(token, c) > MAX_SUGGESTED_DISTANCE
    case Some(best) => exists k :: 0 <= k < |candidates| && candidates[k] == best && IsFirstBest(token, candidates, k)
  }

  ghost predicate IsFirstBest(token: string, candidates: seq<string>, k: int)
    requires 0 <= k < |candidates|
  {
    && Distance(token, candidates[k]) <= MAX_SUGGESTED_DISTANCE
    && (forall i :: 0 <= i < |candidates| ==> Distance(token, candidates[k]) <= Distance(token, candidates[i]))
    && (forall i :: 0 <= i < k ==> Distance(token, candidates[k]) < Distance(token, candidates[i]))
  }

  /** Suggests for a token as typed; `lower` is the language's conversion to lower case. */
  method Suggest(typed: string, candidates: seq<string>, lower: string -> string) returns (best: Option<string>)
    ensures IsSuggestion(lower(typed), candidates, best)
  {
    var token := lower(typed);
    best := None;
    var bestDistance: Option<nat> := None;
    ghost var at := 0;
    for i := 0 to |candidates|
      invariant best.Some? <==> bestDistance.Some?
      invariant best == None ==> forall c :: c in candidates[..i] ==> Distance(token, c) > MAX_SUGGESTED_DISTANCE
      invariant best.Some? ==> 0 <= at < i && candidates[at] == best.value
                               && bestDistance.value == Distance(token, candidates[at])
                               && bestDistance.value <= MAX_SUGGESTED_DISTANCE
      invariant best.Some? ==>
        forall m :: 0 <= m < i ==>
          && bestDistance.value <= Distance(token, candidates[m])
          && (m < at ==> bestDistance.value < Distance(token, candidates[m]))
    {
      var d := Levenshtein(token, candidates[i]);
      assert candidates[..i + 1] == candidates[..i] + [candidates[i]];
      if (bestDistance == None || d < bestDistance.value) && d <= MAX_SUGGESTED_DISTANCE {
        assert best == None ==> forall m :: 0 <= m < i ==> candidates[m] in candidates[..i];
        bestDistance, best, at := Some(d), Some(candidates[i]), i;
      }
    }
    if best.Some? {
      assert IsFirstBest(token, candidates, at);
    } else {
      assert candidates[..|candidates|] == candidates;
    }
  }
}
