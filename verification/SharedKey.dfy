/** `canonicalized_resource` of crates/talon-backend/src/azure_sharedkey.rs. The URL is
    given as its path and its decoded query pairs. */
module SharedKey {
  import opened Text

  // ----- the order of strings --------------------------------------------

  /** Lexicographic order by scalar value, which is the order of the UTF-8 bytes. */
  predicate Le(a: string, b: string) {
    if a == "" then true
    else if b == "" then false
    else if a[0] != b[0] then a[0] < b[0]
    else Le(a[1..], b[1..])
  }

  lemma {:induction false} LeTotal(a: string, b: string)
    ensures Le(a, b) || Le(b, a)
  {
    if a != "" && b != "" {
      LeTotal(a[1..], b[1..]);
    }
  }

  lemma {:induction false} LeAntisymmetric(a: string, b: string)
    requires Le(a, b) && Le(b, a)
    ensures a == b
  {
    if a != "" && b != "" {
      LeAntisymmetric(a[1..], b[1..]);
      HeadTail(a, "");
      HeadTail(b, "");
    }
  }

  lemma {:induction false} LeTransitive(a: string, b: string, c: string)
    requires Le(a, b) && Le(b, c)
    ensures Le(a, c)
  {
    if a != "" && b != "" && c != "" {
      if a[0] == b[0] == c[0] {
        LeTransitive(a[1..], b[1..], c[1..]);
      }
    }
  }

  // ----- sorted lists ----------------------------------------------------

  predicate Sorted(s: seq<string>) {
    s != [] ==> (forall v :: v in s[1..] ==> Le(s[0], v)) && Sorted(s[1..])
  }

  function InsertSorted(s: seq<string>, v: string): seq<string> {
    if s == [] || Le(v, s[0]) then [v] + s else [s[0]] + InsertSorted(s[1..], v)
  }

  /** `sort`. */
  function Sort(s: seq<string>): seq<string> {
    if s == [] then [] else InsertSorted(Sort(s[1..]), s[0])
  }

  lemma {:induction false} InsertIsSorted(s: seq<string>, v: string)
    requires Sorted(s)
    ensures Sorted(InsertSorted(s, v)) && multiset(InsertSorted(s, v)) == multiset(s) + multiset{v}
  {
    if s == [] || Le(v, s[0]) {
      var r := [v] + s;
      assert r[1..] == s;
      forall w | w in s
        ensures Le(v, w)
      {
        if w != s[0] {
          SplitIn(s, w);
          LeTransitive(v, s[0], w);
        }
      }
    } else {
      LeTotal(v, s[0]);
      InsertIsSorted(s[1..], v);
      var t := InsertSorted(s[1..], v);
      assert ([s[0]] + t)[1..] == t;
      HeadTail(s, []);
      forall w | w in t
        ensures Le(s[0], w)
      {
        assert w in multiset(t);
      }
    }
  }

  lemma SplitIn(s: seq<string>, w: string)
    requires s != [] && w in s && w != s[0]
    ensures w in s[1..]
  {
    HeadTail(s, []);
  }

  lemma {:induction false} SortIsSorted(s: seq<string>)
    ensures Sorted(Sort(s)) && multiset(Sort(s)) == multiset(s)
  {
    if s == [] {
    } else {
      SortIsSorted(s[1..]);
      InsertIsSorted(Sort(s[1..]), s[0]);
      HeadTail(s, []);
    }
  }

  lemma {:induction false} HeadIsLeast(s: seq<string>, v: string)
    requires Sorted(s) && v in s
    ensures Le(s[0], v)
  {
    if v == s[0] {
      LeTotal(v, v);
    } else {
      SplitIn(s, v);
    }
  }

  /** A sorted list is determined by what it holds. */
  lemma {:induction false} SortedIsUnique(a: seq<string>, b: seq<string>)
    requires Sorted(a) && Sorted(b) && multiset(a) == multiset(b)
    ensures a == b
  {
    if a == [] || b == [] {
      assert |multiset(a)| == |a| && |multiset(b)| == |b|;
    } else {
      assert a[0] in multiset(b) && b[0] in multiset(a);
      HeadIsLeast(a, b[0]);
      HeadIsLeast(b, a[0]);
      LeAntisymmetric(a[0], b[0]);
      HeadTail(a, []);
      HeadTail(b, []);
      assert multiset(a[1..]) == multiset(a) - multiset{a[0]};
      assert multiset(b[1..]) == multiset(b) - multiset{b[0]};
      SortedIsUnique(a[1..], b[1..]);
    }
  }

  // ----- grouping query parameters ---------------------------------------

  type Pairs = seq<(string, string)>

  /** The values given for a lowercased name, with repetitions. */
  function ValuesOf(query: Pairs, name: string): multiset<string> {
    if query == [] then multiset{}
    else
      var last := query[|query| - 1];
      ValuesOf(query[..|query| - 1], name) + (if Lower(last.0) == name then multiset{last.1} else multiset{})
  }

  datatype Group = Group(name: string, values: seq<string>)

  function Names(gs: seq<Group>): (r: seq<string>)
    ensures |r| == |gs| && forall i :: 0 <= i < |gs| ==> r[i] == gs[i].name
  {
    seq(|gs|, i requires 0 <= i < |gs| => gs[i].name)
  }

  /** Strictly increasing. */
  predicate Increasing(s: seq<string>) {
    s != [] ==> (forall v :: v in s[1..] ==> Le(s[0], v) && v != s[0]) && Increasing(s[1..])
  }

  predicate HoldsValues(g: Group, query: Pairs) {
    Sorted(g.values) && multiset(g.values) == ValuesOf(query, g.name) && g.values != []
  }

  /** Names in strictly increasing order, each with exactly the values given for it, in
      sorted order; and no name is missing. */
  ghost predicate IsGrouping(gs: seq<Group>, query: Pairs) {
    && Increasing(Names(gs))
    && (forall i :: 0 <= i < |gs| ==> HoldsValues(gs[i], query))
    && (forall name :: ValuesOf(query, name) != multiset{} ==> name in Names(gs))
  }

  function RenderGroups(gs: seq<Group>): string {
    if gs == [] then ""
    else
      var last := gs[|gs| - 1];
      RenderGroups(gs[..|gs| - 1]) + ("\n" + last.name + ":" + Join(last.values, ','))
  }

  function Lowered(query: Pairs): (r: Pairs)
    ensures |r| == |query| && forall i :: 0 <= i < |query| ==> r[i] == (Lower(query[i].0), query[i].1)
  {
    seq(|query|, i requires 0 <= i < |query| => (Lower(query[i].0), query[i].1))
  }

  lemma LoweredAppend(a: Pairs, b: Pairs)
    ensures Lowered(a + b) == Lowered(a) + Lowered(b)
  {
  }

  lemma {:induction false} ValuesAreCounted(query: Pairs, name: string, value: string)
    ensures ValuesOf(query, name)[value] == multiset(Lowered(query))[(name, value)]
  {
    if query == [] {
    } else {
      var front, last := query[..|query| - 1], query[|query| - 1];
      ValuesAreCounted(front, name, value);
      LoweredAppend(front, [last]);
      assert query == front + [last];
      assert Lowered([last]) == [(Lower(last.0), last.1)];
    }
  }

  /** Only the multiset of (lowercased name, value) pairs matters. */
  lemma ValuesIgnoreOrder(q1: Pairs, q2: Pairs, name: string)
    requires multiset(Lowered(q1)) == multiset(Lowered(q2))
    ensures ValuesOf(q1, name) == ValuesOf(q2, name)
  {
    forall v
      ensures ValuesOf(q1, name)[v] == ValuesOf(q2, name)[v]
    {
      ValuesAreCounted(q1, name, v);
      ValuesAreCounted(q2, name, v);
    }
  }

  lemma {:induction false} IncreasingIsSet(s: seq<string>, v: string)
    requires Increasing(s)
    ensures Sorted(s) && multiset(s)[v] == if v in s then 1 else 0
  {
    if s == [] {
    } else {
      IncreasingIsSet(s[1..], v);
      HeadTail(s, []);
      assert multiset(s) == multiset{s[0]} + multiset(s[1..]);
    }
  }

  lemma IncreasingIsUnique(a: seq<string>, b: seq<string>)
    requires Increasing(a) && Increasing(b) && forall v :: v in a <==> v in b
    ensures a == b
  {
    hide Increasing, Sorted;
    forall v
      ensures multiset(a)[v] == multiset(b)[v]
    {
      IncreasingIsSet(a, v);
      IncreasingIsSet(b, v);
    }
    IncreasingIsSet(a, "");
    IncreasingIsSet(b, "");
    SortedIsUnique(a, b);
  }

  lemma GroupingHasName(gs: seq<Group>, query: Pairs, name: string)
    requires IsGrouping(gs, query)
    ensures name in Names(gs) <==> ValuesOf(query, name) != multiset{}
  {
    hide ValuesOf, Increasing, Sorted;
    if name in Names(gs) {
      var i :| 0 <= i < |gs| && Names(gs)[i] == name;
      assert HoldsValues(gs[i], query);
      assert gs[i].values[0] in multiset(gs[i].values);
    }
  }

  /** The grouping of a query depends on nothing but the multiset of its (lowercased name,
      value) pairs: any reordering of the query has the same, unique, grouping. */
  lemma GroupingIsCanonical(g1: seq<Group>, q1: Pairs, g2: seq<Group>, q2: Pairs)
    requires IsGrouping(g1, q1) && IsGrouping(g2, q2)
    requires multiset(Lowered(q1)) == multiset(Lowered(q2))
    ensures g1 == g2
  {
    hide ValuesOf, Increasing, Sorted, Lowered;
    forall name
      ensures name in Names(g1) <==> name in Names(g2)
    {
      GroupingHasName(g1, q1, name);
      GroupingHasName(g2, q2, name);
      ValuesIgnoreOrder(q1, q2, name);
    }
    IncreasingIsUnique(Names(g1), Names(g2));
    assert |g1| == |Names(g1)| == |Names(g2)| == |g2|;
    forall i | 0 <= i < |g1|
      ensures g1[i] == g2[i]
    {
      assert Names(g1)[i] == g1[i].name && Names(g2)[i] == g2[i].name;
      assert HoldsValues(g1[i], q1) && HoldsValues(g2[i], q2);
      ValuesIgnoreOrder(q1, q2, g1[i].name);
      SortedIsUnique(g1[i].values, g2[i].values);
    }
  }

  // ----- the code --------------------------------------------------------

  /** The least key, where an ordered map starts its iteration. */
  method LeastKey(keys: set<string>) returns (least: string)
    requires keys != {}
    ensures least in keys && forall k :: k in keys ==> Le(least, k)
  {
    least :| least in keys;
    var rest := keys - {least};
    LeTotal(least, least);
    while rest != {}
      invariant least in keys && rest <= keys
      invariant forall k :: k in keys && k !in rest ==> Le(least, k)
      decreases rest
    {
      var k :| k in rest;
      rest := rest - {k};
      LeTotal(k, least);
      LeTotal(k, k);
      if !Le(least, k) {
        forall j | j in keys && j !in rest
          ensures Le(k, j)
        {
          if j != k {
            LeTransitive(k, least, j);
          }
        }
        least := k;
      }
    }
  }

  /** Each name given so far, with its values. */
  ghost predicate Collected(values: map<string, seq<string>>, query: Pairs) {
    forall name :: ValuesOf(query, name) == if name in values then multiset(values[name]) else multiset{}
  }

  predicate NoneEmpty(values: map<string, seq<string>>) {
    forall name :: name in values ==> values[name] != []
  }

  lemma ValuesOfMore(query: Pairs, p: (string, string), name: string)
    ensures ValuesOf(query + [p], name) ==
            ValuesOf(query, name) + (if Lower(p.0) == name then multiset{p.1} else multiset{})
  {
    assert (query + [p])[..|query|] == query;
  }

  lemma CollectMore(values: map<string, seq<string>>, query: Pairs, p: (string, string), given: seq<string>)
    requires Collected(values, query)
    requires given == if Lower(p.0) in values then values[Lower(p.0)] else []
    ensures Collected(values[Lower(p.0) := given + [p.1]], query + [p])
  {
    hide ValuesOf;
    forall name {
      ValuesOfMore(query, p, name);
    }
  }

  /** Filling the map: each name with its values in query order. */
  method CollectQuery(query: Pairs) returns (values: map<string, seq<string>>)
    ensures Collected(values, query) && NoneEmpty(values)
  {
    hide Collected;
    values := map[];
    NothingCollected();
    for i := 0 to |query|
      invariant Collected(values, query[..i]) && NoneEmpty(values)
    {
      var name, value := Lower(query[i].0), query[i].1;
      var given := if name in values then values[name] else [];
      CollectMore(values, query[..i], query[i], given);
      assert query[..i + 1] == query[..i] + [query[i]];
      values := values[name := given + [value]];
    }
    assert query[..|query|] == query;
  }

  lemma NothingCollected()
    ensures Collected(map[], [])
  {
  }

  lemma {:induction false} IncreasingAppend(s: seq<string>, v: string)
    requires Increasing(s) && forall w :: w in s ==> Le(w, v) && w != v
    ensures Increasing(s + [v])
  {
    if s == [] {
      assert (s + [v])[1..] == [];
    } else {
      IncreasingAppend(s[1..], v);
      assert (s + [v])[0] == s[0] && (s + [v])[1..] == s[1..] + [v];
    }
  }

  /** What the printing loop has done: `gs` is printed, the names of `rest` come later. */
  ghost predicate Before(gs: seq<Group>, rest: map<string, seq<string>>) {
    && Increasing(Names(gs))
    && (forall a, b :: a in Names(gs) && b in rest ==> Le(a, b) && a != b)
  }

  ghost predicate Printed(gs: seq<Group>, rest: map<string, seq<string>>, query: Pairs) {
    && (forall i :: 0 <= i < |gs| ==> HoldsValues(gs[i], query))
    && NoneEmpty(rest)
    && (forall name :: name in rest ==> multiset(rest[name]) == ValuesOf(query, name))
    && (forall name :: ValuesOf(query, name) != multiset{} ==> name in rest || name in Names(gs))
  }

  lemma NamesMore(gs: seq<Group>, g: Group)
    ensures Names(gs + [g]) == Names(gs) + [g.name]
  {
  }

  lemma BeforeStep(gs: seq<Group>, rest: map<string, seq<string>>, g: Group)
    requires Before(gs, rest) && g.name in rest && forall k :: k in rest ==> Le(g.name, k)
    ensures Before(gs + [g], rest - {g.name})
  {
    hide Increasing, Le;
    NamesMore(gs, g);
    IncreasingAppend(Names(gs), g.name);
  }

  lemma SortedGroupHolds(name: string, values: seq<string>, query: Pairs)
    requires multiset(values) == ValuesOf(query, name) && values != []
    ensures HoldsValues(Group(name, Sort(values)), query)
  {
    hide ValuesOf, Sorted, Sort;
    SortIsSorted(values);
    assert |multiset(Sort(values))| == |Sort(values)| && |multiset(values)| == |values|;
  }

  lemma PrintedStep(gs: seq<Group>, rest: map<string, seq<string>>, query: Pairs, name: string)
    requires Printed(gs, rest, query) && name in rest
    ensures Printed(gs + [Group(name, Sort(rest[name]))], rest - {name}, query)
  {
    hide ValuesOf, Sort, HoldsValues;
    var g := Group(name, Sort(rest[name]));
    SortedGroupHolds(name, rest[name], query);
    NamesMore(gs, g);
  }

  /** The text prints the account, the path and a grouping of the query. */
  ghost predicate IsResource(resource: string, account: string, path: string, query: Pairs) {
    exists groups :: IsGrouping(groups, query) && resource == "/" + account + path + RenderGroups(groups)
  }

  /** `canonicalized_resource`: names in order, each with its sorted values. */
  method CanonicalizedResource(account: string, path: string, query: Pairs) returns (resource: string)
    ensures IsResource(resource, account, path, query)
  {
    hide ValuesOf, Increasing, Sorted, Sort, Le, Join, HoldsValues, RenderGroups;
    var rest := CollectQuery(query);
    var head := "/" + account + path;
    ghost var groups: seq<Group> := [];
    resource := head;
    NothingPrinted(rest, query);
    while rest.Keys != {}
      invariant Before(groups, rest) && Printed(groups, rest, query)
      invariant resource == head + RenderGroups(groups)
      decreases rest.Keys
    {
      var name := LeastKey(rest.Keys);
      var values := Sort(rest[name]);
      BeforeStep(groups, rest, Group(name, values));
      PrintedStep(groups, rest, query, name);
      var line := "\n" + name + ":" + Join(values, ',');
      RenderOneMore(groups, Group(name, values));
      Assoc(head, RenderGroups(groups), line);
      resource := resource + line;
      groups := groups + [Group(name, values)];
      rest := rest - {name};
    }
  }

  lemma NothingPrinted(values: map<string, seq<string>>, query: Pairs)
    requires Collected(values, query) && NoneEmpty(values)
    ensures Before([], values) && Printed([], values, query) && RenderGroups([]) == ""
  {
    hide ValuesOf, Le;
    assert Names([]) == [];
  }

  lemma RenderOneMore(gs: seq<Group>, g: Group)
    ensures RenderGroups(gs + [g]) == RenderGroups(gs) + ("\n" + g.name + ":" + Join(g.values, ','))
  {
    assert (gs + [g])[..|gs|] == gs;
  }

  /** The text is determined by account, path and the multiset of (lowercased name, value)
      pairs; so every permutation of the query is signed as the same resource. */
  lemma ResourceIsDetermined(account: string, path: string, r1: string, q1: Pairs, r2: string, q2: Pairs)
    requires IsResource(r1, account, path, q1) && IsResource(r2, account, path, q2)
    requires multiset(Lowered(q1)) == multiset(Lowered(q2))
    ensures r1 == r2
  {
    hide IsGrouping, RenderGroups;
    var g1 :| IsGrouping(g1, q1) && r1 == "/" + account + path + RenderGroups(g1);
    var g2 :| IsGrouping(g2, q2) && r2 == "/" + account + path + RenderGroups(g2);
    GroupingIsCanonical(g1, q1, g2, q2);
  }

  lemma ResourceIgnoresQueryOrder(account: string, path: string, r1: string, q1: Pairs, r2: string, q2: Pairs)
    requires IsResource(r1, account, path, q1) && IsResource(r2, account, path, q2)
    requires multiset(q1) == multiset(q2)
    ensures r1 == r2
  {
    hide IsResource;
    LoweredIgnoresOrder(q1, q2);
    ResourceIsDetermined(account, path, r1, q1, r2, q2);
  }

  /** Taking out one pair takes out its lowered form. */
  lemma LoweredWithout(q: Pairs, i: nat)
    requires i < |q|
    ensures var rest := q[..i] + q[i + 1..];
            && multiset(q) == multiset(rest) + multiset{q[i]}
            && multiset(Lowered(q)) == multiset(Lowered(rest)) + multiset{(Lower(q[i].0), q[i].1)}
  {
    var a, b := q[..i], q[i + 1..];
    assert q == a + ([q[i]] + b);
    LoweredAppend(a, [q[i]] + b);
    LoweredAppend([q[i]], b);
    LoweredAppend(a, b);
    assert Lowered([q[i]]) == [(Lower(q[i].0), q[i].1)];
  }

  lemma {:induction false} LoweredIgnoresOrder(q1: Pairs, q2: Pairs)
    requires multiset(q1) == multiset(q2)
    ensures multiset(Lowered(q1)) == multiset(Lowered(q2))
    decreases |q1|
  {
    hide Lowered;
    if q1 == [] {
      assert |multiset(q1)| == |q1| && |multiset(q2)| == |q2|;
    } else {
      assert q1[0] in multiset(q2);
      var i :| 0 <= i < |q2| && q2[i] == q1[0];
      LoweredWithout(q1, 0);
      LoweredWithout(q2, i);
      Cancel(multiset(q1[..0] + q1[1..]), multiset(q2[..i] + q2[i + 1..]), q1[0]);
      LoweredIgnoresOrder(q1[..0] + q1[1..], q2[..i] + q2[i + 1..]);
    }
  }

  lemma Cancel<T>(a: multiset<T>, b: multiset<T>, x: T)
    requires a + multiset{x} == b + multiset{x}
    ensures a == b
  {
    assert a == a + multiset{x} - multiset{x};
    assert b == b + multiset{x} - multiset{x};
  }

  /** The order is the lexicographic one, upwards: a prefix comes first, and otherwise the
      first difference decides. */
  lemma {:induction false} LeIsLexicographic(p: string, x: char, y: char, s: string, t: string)
    requires x < y
    ensures Le(p, p + s)
    ensures s != "" ==> !Le(p + s, p)
    ensures Le(p + ([x] + s), p + ([y] + t)) && !Le(p + ([y] + t), p + ([x] + s))
  {
    if p == "" {
      assert p + s == s && p + ([x] + s) == [x] + s && p + ([y] + t) == [y] + t;
    } else {
      LeIsLexicographic(p[1..], x, y, s, t);
      HeadTail(p, s);
      HeadTail(p, [x] + s);
      HeadTail(p, [y] + t);
      SameHead(p[0], p[1..], p[1..] + s);
      SameHead(p[0], p[1..] + ([x] + s), p[1..] + ([y] + t));
      SameHead(p[0], p[1..], p[1..]);
    }
  }

  lemma SameHead(c: char, a: string, b: string)
    ensures Le([c] + a, [c] + b) <==> Le(a, b)
    ensures Le([c] + b, [c] + a) <==> Le(b, a)
  {
    assert ([c] + a)[1..] == a && ([c] + b)[1..] == b;
  }
}
