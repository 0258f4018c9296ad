/**
 The did-you-mean behind an unavailable tool name: the two-row edit distance against
 the shortest edit script, and the choice of the nearest offered name
 (apps/api/src/agent/loop/turn.ts).
 */
module EditDistance {
  import opened Wrappers

  // ---------- Edit scripts ----------

  // One pass over `a` from the left, writing `b`.
  datatype Edit = Keep | Substitute(c: char) | Delete | Insert(c: char)

  type Script = seq<Edit>

  function Cost(script: Script): nat {
    if script == [] then 0
    else Cost(script[1..]) + (if script[0].Keep? then 0 else 1)
  }

  // The string the script makes of `a`, where it reads the whole of it.
  function Apply(a: string, script: Script): Option<string>
    decreases |script|
  {
    if script == [] then if a == "" then Some("") else None
    else
      match script[0]
      case Insert(c) => Prefixed(c, Apply(a, script[1..]))
      case Keep => if a == "" then None else Prefixed(a[0], Apply(a[1..], script[1..]))
      case Substitute(c) => if a == "" then None else Prefixed(c, Apply(a[1..], script[1..]))
      case Delete => if a == "" then None else Apply(a[1..], script[1..])
  }

  function Prefixed(c: char, rest: Option<string>): Option<string> {
    match rest
    case Some(s) => Some([c] + s)
    case None => None
  }

  ghost predicate Rewrites(script: Script, a: string, b: string) {
    Apply(a, script) == Some(b)
  }

  // ---------- The recurrence ----------

  function Min3(x: nat, y: nat, z: nat): nat {
    if x <= y && x <= z then x else if y <= z then y else z
  }

  function Distance(a: string, b: string): (d: nat)
    decreases |a| + |b|
  {
    if a == "" then |b|
    else if b == "" then |a|
    else
      var a', b' := a[..|a| - 1], b[..|b| - 1];
      Min3(Distance(a', b) + 1, Distance(a, b') + 1,
           Distance(a', b') + (if a[|a| - 1] == b[|b| - 1] then 0 else 1))
  }

  lemma Cell(a: string, b: string, i: nat, j: nat)
    requires 0 < i <= |a| && 0 < j <= |b|
    ensures Distance(a[..i], b[..j])
         == Min3(Distance(a[..i - 1], b[..j]) + 1, Distance(a[..i], b[..j - 1]) + 1,
                 Distance(a[..i - 1], b[..j - 1]) + (if a[i - 1] == b[j - 1] then 0 else 1))
  {
    assert a[..i][..i - 1] == a[..i - 1] && b[..j][..j - 1] == b[..j - 1];
  }

  // One row of the table: the distances of this prefix of `a` to every prefix of `b`.
  ghost predicate IsRow(a: string, b: string, i: nat, row: seq<nat>)
    requires i <= |a|
  {
    |row| <= |b| + 1 && forall j {:trigger row[j]} :: 0 <= j < |row| ==> row[j] == Distance(a[..i], b[..j])
  }

  method NextRow(a: string, b: string, i: nat, prev: seq<nat>) returns (row: seq<nat>)
    requires 0 < i <= |a| && IsRow(a, b, i - 1, prev) && |prev| == |b| + 1
    ensures IsRow(a, b, i, row) && |row| == |b| + 1
  {
    row := [i];
    assert b[..0] == "" && |a[..i]| == i;
    for j := 1 to |b| + 1
      invariant |row| == j && IsRow(a, b, i, row)
    {
      Cell(a, b, i, j);
      var cell: nat := Min3(prev[j] + 1, row[j - 1] + 1, prev[j - 1] + (if a[i - 1] == b[j - 1] then 0 else 1));
      row := row + [cell];
    }
  }

  /** editDistance: two rows of the table, each built from the one before. */
  method TwoRowDistance(a: string, b: string) returns (d: nat)
    ensures d == Distance(a, b)
  {
    var prev: seq<nat> := seq(|b| + 1, j requires 0 <= j < |b| + 1 => j as nat);
    for i := 1 to |a| + 1
      invariant IsRow(a, b, i - 1, prev) && |prev| == |b| + 1
    {
      prev := NextRow(a, b, i, prev);
    }
    assert a[..|a|] == a && b[..|b|] == b;
    d := prev[|b|];
  }

  // ---------- Shortest ----------

  lemma {:induction false} CostConcat(s: Script, t: Script)
    ensures Cost(s + t) == Cost(s) + Cost(t)
    decreases |s|
  {
    if s == [] {
      assert s + t == t;
    } else {
      assert (s + t)[1..] == s[1..] + t;
      CostConcat(s[1..], t);
    }
  }

  lemma PrefixedConcat(c: char, x: Option<string>, y: Option<string>)
    requires x.Some? && y.Some?
    ensures Prefixed(c, Some(x.value + y.value)) == Some(Prefixed(c, x).value + y.value)
  {
    assert [c] + (x.value + y.value) == ([c] + x.value) + y.value;
  }

  lemma {:induction false} ApplyConcat(a1: string, a2: string, s: Script, t: Script)
    requires Apply(a1, s).Some? && Apply(a2, t).Some?
    ensures Apply(a1 + a2, s + t) == Some(Apply(a1, s).value + Apply(a2, t).value)
    decreases |s|
  {
    if s == [] {
      assert s + t == t && a1 + a2 == a2 && "" + Apply(a2, t).value == Apply(a2, t).value;
    } else {
      assert (s + t)[1..] == s[1..] + t;
      if !s[0].Insert? {
        assert (a1 + a2)[1..] == a1[1..] + a2 && (a1 + a2)[0] == a1[0];
        ApplyConcat(a1[1..], a2, s[1..], t);
        PrefixedConcat(a1[0], Apply(a1[1..], s[1..]), Apply(a2, t));
        if s[0].Substitute? { PrefixedConcat(s[0].c, Apply(a1[1..], s[1..]), Apply(a2, t)); }
      } else {
        ApplyConcat(a1, a2, s[1..], t);
        PrefixedConcat(s[0].c, Apply(a1, s[1..]), Apply(a2, t));
      }
    }
  }

  function Inserts(b: string): (script: Script)
    decreases |b|
  {
    if b == "" then [] else Inserts(b[..|b| - 1]) + [Insert(b[|b| - 1])]
  }

  lemma ApplyOne(e: Edit, a: string)
    requires if e.Insert? then a == "" else |a| == 1
    ensures Apply(a, [e])
         == match e
            case Insert(c) => Some([c])
            case Keep => Some(a)
            case Substitute(c) => Some([c])
            case Delete => Some("")
    ensures Cost([e]) == if e.Keep? then 0 else 1
  {
    var rest := if e.Insert? then a else a[1..];
    var none: Script := [e][1..];
    assert rest == "" && none == [];
    assert Apply(rest, none) == Some("");
    match e
    case Insert(c) => assert [c] + "" == [c];
    case Keep => assert [a[0]] + "" == a;
    case Substitute(c) => assert [c] + "" == [c];
    case Delete =>
  }

  // What an edit at the end of a script reads off `a` and writes onto `b`.
  ghost predicate Ends(e: Edit, a: string, a': string, b: string, b': string) {
    match e
    case Insert(c) => a == a' && b == b' + [c]
    case Delete => a != "" && a' == a[..|a| - 1] && b == b'
    case Keep => a != "" && a' == a[..|a| - 1] && b == b' + [a[|a| - 1]]
    case Substitute(c) => a != "" && a' == a[..|a| - 1] && b == b' + [c]
  }

  // A script one edit longer, where the edit reads the last of `a` and writes the last of `b`.
  lemma Extend(a: string, a': string, b: string, b': string, s: Script, e: Edit)
    requires Rewrites(s, a', b') && Ends(e, a, a', b, b')
    ensures Rewrites(s + [e], a, b) && Cost(s + [e]) == Cost(s) + (if e.Keep? then 0 else 1)
  {
    var last := if e.Insert? then "" else [a[|a| - 1]];
    ApplyOne(e, last);
    ApplyConcat(a', last, s, [e]);
    CostConcat(s, [e]);
    assert a == a' + last;
    assert e.Delete? ==> b' + "" == b;
  }

  /** Some script costs exactly the distance. */
  lemma {:induction false} DistanceIsReached(a: string, b: string) returns (s: Script)
    ensures Rewrites(s, a, b) && Cost(s) == Distance(a, b)
    decreases |a| + |b|
  {
    if a == "" && b == "" {
      s := [];
    } else if a == "" {
      s := DistanceIsReached(a, b[..|b| - 1]);
      Extend(a, a, b, b[..|b| - 1], s, Insert(b[|b| - 1]));
      s := s + [Insert(b[|b| - 1])];
    } else if b == "" {
      s := DistanceIsReached(a[..|a| - 1], b);
      Extend(a, a[..|a| - 1], b, b, s, Delete);
      s := s + [Delete];
    } else {
      s := CheapestLast(a, b);
    }
  }

  lemma {:induction false} CheapestLast(a: string, b: string) returns (s: Script)
    requires a != "" && b != ""
    ensures Rewrites(s, a, b) && Cost(s) == Distance(a, b)
    decreases |a| + |b|, 0
  {
    var a', b' := a[..|a| - 1], b[..|b| - 1];
    var x, y := a[|a| - 1], b[|b| - 1];
    if Distance(a, b) == Distance(a', b) + 1 {
      s := DistanceIsReached(a', b);
      Extend(a, a', b, b, s, Delete);
      s := s + [Delete];
    } else if Distance(a, b) == Distance(a, b') + 1 {
      s := DistanceIsReached(a, b');
      Extend(a, a, b, b', s, Insert(y));
      s := s + [Insert(y)];
    } else {
      s := DistanceIsReached(a', b');
      var e := if x == y then Keep else Substitute(y);
      Extend(a, a', b, b', s, e);
      s := s + [e];
    }
  }

  lemma EndsBehind(e: Edit, a: string, a': string, b: string, b': string, x: string, y: string)
    requires Ends(e, a, a', b, b')
    ensures Ends(e, x + a, x + a', y + b, y + b')
  {
  }

  // What an edit at the start of a script reads and writes.
  ghost predicate Starts(e: Edit, x: string, y: string) {
    match e
    case Insert(c) => x == "" && y == [c]
    case Delete => |x| == 1 && y == ""
    case Keep => |x| == 1 && y == x
    case Substitute(c) => |x| == 1 && y == [c]
  }

  lemma FirstEdit(a: string, b: string, s: Script) returns (x: string, y: string, rest: string, out: string)
    requires Rewrites(s, a, b) && s != []
    ensures Starts(s[0], x, y) && a == x + rest && b == y + out && Rewrites(s[1..], rest, out)
  {
    rest := if s[0].Insert? then a else a[1..];
    out := Apply(rest, s[1..]).value;
    x := if s[0].Insert? then "" else [a[0]];
    y := if s[0].Delete? then "" else [b[0]];
  }

  lemma Prepend(e: Edit, x: string, y: string, a: string, b: string, s: Script)
    requires Starts(e, x, y) && Rewrites(s, a, b)
    ensures Rewrites([e] + s, x + a, y + b)
  {
    assert ([e] + s)[1..] == s && "" + a == a && "" + b == b;
    assert x != "" ==> (x + a)[1..] == a && [(x + a)[0]] == x;
  }

  // Reading a script from its end: the last edit, and the script before it.
  lemma {:induction false} LastEdit(a: string, b: string, s: Script) returns (a': string, b': string)
    requires Rewrites(s, a, b) && s != []
    ensures Rewrites(s[..|s| - 1], a', b') && Ends(s[|s| - 1], a, a', b, b')
    decreases |s|
  {
    var x, y, rest, out := FirstEdit(a, b, s);
    if |s| == 1 {
      assert s[1..] == [] && s[..0] == [];
      assert a == x && b == y;
      a', b' := "", "";
    } else {
      var mid := s[1..|s| - 1];
      assert s[1..][..|s| - 2] == mid && s[..|s| - 1] == [s[0]] + mid;
      var a1, b1 := LastEdit(rest, out, s[1..]);
      EndsBehind(s[|s| - 1], rest, a1, out, b1, x, y);
      Prepend(s[0], x, y, a1, b1, mid);
      a', b' := x + a1, y + b1;
    }
  }

  /** No script costs less. */
  lemma {:induction false} NothingCheaper(a: string, b: string, s: Script)
    requires Rewrites(s, a, b)
    ensures Distance(a, b) <= Cost(s)
    decreases |s|
  {
    if s != [] {
      var front, e := s[..|s| - 1], s[|s| - 1];
      var a', b' := LastEdit(a, b, s);
      NothingCheaper(a', b', front);
      assert s == front + [e];
      CostConcat(front, [e]);
      assert [e][1..] == [];
      DistanceStep(a, b);
      assert !e.Delete? ==> b' == b[..|b| - 1];
    }
  }

  // One edit at the end moves the distance by at most that edit, also at the table's edges.
  lemma {:induction false} DistanceStep(a: string, b: string)
    ensures a != "" ==> Distance(a, b) <= Distance(a[..|a| - 1], b) + 1
    ensures b != "" ==> Distance(a, b) <= Distance(a, b[..|b| - 1]) + 1
    ensures a != "" && b != "" ==>
      Distance(a, b) <= Distance(a[..|a| - 1], b[..|b| - 1]) + (if a[|a| - 1] == b[|b| - 1] then 0 else 1)
  {
    if a == "" || b == "" {
      DistanceAtEdge(a);
      DistanceAtEdge(b);
    }
  }

  lemma DistanceAtEdge(a: string)
    ensures Distance(a, "") == |a| && Distance("", a) == |a|
  {
  }

  // ---------- A metric ----------

  // The script read the other way, from `b` back to `a`.
  function Reversed(a: string, s: Script): Script
    requires Apply(a, s).Some?
    decreases |s|
  {
    if s == [] then []
    else
      match s[0]
      case Insert(_) => [Delete] + Reversed(a, s[1..])
      case Keep => [Keep] + Reversed(a[1..], s[1..])
      case Substitute(_) => [Substitute(a[0])] + Reversed(a[1..], s[1..])
      case Delete => [Insert(a[0])] + Reversed(a[1..], s[1..])
  }

  lemma {:induction false} ReversedRewrites(a: string, b: string, s: Script)
    requires Rewrites(s, a, b)
    ensures Rewrites(Reversed(a, s), b, a) && Cost(Reversed(a, s)) == Cost(s)
    decreases |s|
  {
    if s != [] {
      var rest := if s[0].Insert? then a else a[1..];
      var out := Apply(rest, s[1..]).value;
      ReversedRewrites(rest, out, s[1..]);
      var r := Reversed(a, s);
      assert r[1..] == Reversed(rest, s[1..]);
      assert s[0].Insert? || a == [a[0]] + rest;
      assert s[0].Delete? || b[1..] == out;
    }
  }

  // Scripts run one after the other, as one.
  lemma {:induction false} Composed(a: string, b: string, c: string, s: Script, t: Script) returns (u: Script)
    requires Rewrites(s, a, b) && Rewrites(t, b, c)
    ensures Rewrites(u, a, c) && Cost(u) <= Cost(s) + Cost(t)
    decreases |s| + |t|
  {
    if s == [] {
      u := t;
    } else if s[0].Delete? {
      u := Composed(a[1..], b, c, s[1..], t);
      u := [Delete] + u;
      assert u[1..] == u[1..];
    } else if t == [] {
      assert false;
    } else if t[0].Insert? {
      u := Composed(a, b, c[1..], s, t[1..]);
      u := [t[0]] + u;
    } else {
      u := ComposedPair(a, b, c, s, t);
    }
  }

  // Both scripts touch the first character of `b`: one edit does what the two do.
  lemma {:induction false} ComposedPair(a: string, b: string, c: string, s: Script, t: Script) returns (u: Script)
    requires Rewrites(s, a, b) && Rewrites(t, b, c)
    requires s != [] && t != [] && !s[0].Delete? && !t[0].Insert?
    ensures Rewrites(u, a, c) && Cost(u) <= Cost(s) + Cost(t)
    decreases |s| + |t|, 0
  {
    var a' := if s[0].Insert? then a else a[1..];
    var b' := Apply(a', s[1..]).value;
    assert b[1..] == b';
    var c' := Apply(b', t[1..]).value;
    var v := Composed(a', b', c', s[1..], t[1..]);
    if s[0].Insert? {
      u := if t[0].Delete? then v else [Insert(c[0])] + v;
    } else {
      u := [if t[0].Delete? then Delete else if s[0].Keep? && t[0].Keep? then Keep else Substitute(c[0])] + v;
    }
    assert u == v || u[1..] == v;
  }

  /** The distance is a metric. */
  lemma DistanceIsAMetric(a: string, b: string, c: string)
    ensures Distance(a, b) == Distance(b, a)
    ensures Distance(a, b) == 0 <==> a == b
    ensures Distance(a, c) <= Distance(a, b) + Distance(b, c)
  {
    var s := DistanceIsReached(a, b);
    var r := DistanceIsReached(b, a);
    var t := DistanceIsReached(b, c);
    ReversedRewrites(a, b, s);
    ReversedRewrites(b, a, r);
    NothingCheaper(b, a, Reversed(a, s));
    NothingCheaper(a, b, Reversed(b, r));
    var u := Composed(a, b, c, s, t);
    NothingCheaper(a, c, u);
    if a == b {
      KeepAll(a);
      NothingCheaper(a, a, Keeps(|a|));
    } else if Cost(s) == 0 {
      FreeScriptKeeps(a, b, s);
    }
  }

  function Keeps(n: nat): Script {
    seq(n, _ => Keep)
  }

  lemma {:induction false} KeepAll(a: string)
    ensures Rewrites(Keeps(|a|), a, a) && Cost(Keeps(|a|)) == 0
    decreases |a|
  {
    if a != "" {
      KeepAll(a[1..]);
      assert Keeps(|a|)[1..] == Keeps(|a| - 1) && [a[0]] + a[1..] == a;
    }
  }

  lemma {:induction false} FreeScriptKeeps(a: string, b: string, s: Script)
    requires Rewrites(s, a, b) && Cost(s) == 0
    ensures a == b
    decreases |s|
  {
    if s != [] {
      FreeScriptKeeps(a[1..], Apply(a[1..], s[1..]).value, s[1..]);
    }
  }

  // ---------- The nearest offered name ----------

  // Where the closest name stands, the first of them among equals; |offered| when none is offered.
  ghost predicate Nearest(wanted: string, offered: seq<string>, lower: string -> string, k: nat) {
    && k < |offered|
    && (forall i :: 0 <= i < |offered| ==>
          Distance(lower(wanted), lower(offered[k])) <= Distance(lower(wanted), lower(offered[i])))
    && (forall i :: 0 <= i < k ==>
          Distance(lower(wanted), lower(offered[k])) < Distance(lower(wanted), lower(offered[i])))
  }

  function Longer(a: string, b: string): nat {
    if |a| >= |b| then |a| else |b|
  }

  ghost predicate NearestIsFar(wanted: string, offered: seq<string>, lower: string -> string, k: nat) {
    Nearest(wanted, offered, lower, k)
    && 5 * Distance(lower(wanted), lower(offered[k])) > 2 * Longer(wanted, offered[k])
  }

  /** nearestOffered: the first closest name, unless none is offered or the closest is more than
      two fifths of the longer name away. `lower` stands for toLowerCase. */
  method NearestOffered(wanted: string, offered: seq<string>, lower: string -> string) returns (best: Option<string>)
    ensures best.None? <==> offered == [] || exists k :: NearestIsFar(wanted, offered, lower, k)
    ensures best.Some? ==> exists k: nat :: Nearest(wanted, offered, lower, k) && best.value == offered[k]
  {
    var at, least := 0, 0;
    for i := 0 to |offered|
      invariant i > 0 ==> at < i && least == Distance(lower(wanted), lower(offered[at]))
      invariant forall k :: 0 <= k < i ==> least <= Distance(lower(wanted), lower(offered[k]))
      invariant i > 0 ==> forall k :: 0 <= k < at ==> least < Distance(lower(wanted), lower(offered[k]))
    {
      var distance := TwoRowDistance(lower(wanted), lower(offered[i]));
      if i == 0 || distance < least {
        at, least := i, distance;
      }
    }
    if offered == [] {
      return None;
    }
    assert Nearest(wanted, offered, lower, at);
    assert NearestIsFar(wanted, offered, lower, at) <==> 5 * least > 2 * Longer(wanted, offered[at]);
    NearestIsUnique(wanted, offered, lower);
    return if 5 * least <= 2 * Longer(wanted, offered[at]) then Some(offered[at]) else None;
  }

  lemma NearestIsUnique(wanted: string, offered: seq<string>, lower: string -> string)
    ensures forall j: nat, k: nat :: Nearest(wanted, offered, lower, j) && Nearest(wanted, offered, lower, k) ==> j == k
  {
    forall j: nat, k: nat | Nearest(wanted, offered, lower, j) && Nearest(wanted, offered, lower, k)
      ensures j == k
    {
      assert offered[j] == offered[j] && offered[k] == offered[k];
    }
  }
}
