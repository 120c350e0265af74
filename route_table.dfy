/**
 * The two route tables of the admin client and what a reset of the live router does to
 * the records registered from them, as functions over sequences of records.
 */
module RouteTable {
  import opened JsValues

  type Role = string

  /** The part of a route's `meta` that matters here; titles and icons are presentation only. */
  datatype RouteMeta = RouteMeta(hidden: bool, roles: Option<seq<Role>>)

  /** A route definition as the tables write it. */
  datatype RouteRecordRaw = RouteRecordRaw(
    path: string,
    name: Option<string>,
    redirect: Option<string>,
    meta: RouteMeta,
    children: seq<RouteRecordRaw>)

  /** One record of the live router: every definition, child or not, becomes one record. */
  datatype RouteRecord = RouteRecord(path: string, name: Option<string>, roles: Option<seq<Role>>)

  const NoMeta := RouteMeta(false, None)
  const HiddenMeta := RouteMeta(true, None)
  const SuperAdminMeta := RouteMeta(false, Some(["SUPER_ADMIN"]))

  function Page(path: string, name: Option<string>, meta: RouteMeta): RouteRecordRaw {
    RouteRecordRaw(path, name, None, meta, [])
  }

  /** Routes that are always registered. */
  const ConstantRoutes: seq<RouteRecordRaw> := [
    RouteRecordRaw("/redirect", None, None, HiddenMeta, [Page("/redirect/:path(.*)", None, NoMeta)]),
    Page("/403", None, HiddenMeta),
    Page("/404", None, HiddenMeta),
    Page("/login", None, HiddenMeta),
    RouteRecordRaw("/", None, Some("/dashboard"), NoMeta, [Page("dashboard", Some("Dashboard"), NoMeta)]),
    RouteRecordRaw("/userInfo", None, Some("/current"), HiddenMeta, [Page("/current", Some("个人中心"), NoMeta)])
  ]

  /** The not-found route that must come after every gated route. */
  const CatchAll := RouteRecordRaw("/:pathMatch(.*)*", Some("ErrorPage"), Some("/404"), HiddenMeta, [])

  /** Routes whose pages need a role; every gated child carries a name so that it can be removed. */
  const AsyncRoutes: seq<RouteRecordRaw> := [
    RouteRecordRaw("/users", None, Some("/users"), NoMeta,
      [Page("/users", Some("User List"), SuperAdminMeta)]),
    RouteRecordRaw("/roles", None, Some("/roles"), NoMeta,
      [Page("/roles", Some("Role List"), SuperAdminMeta)]),
    RouteRecordRaw("/articles", None, Some("/articles"), NoMeta,
      [Page("/articles", Some("Article List"), SuperAdminMeta),
       Page("/tags", Some("Article Tag List"), SuperAdminMeta),
       Page("/categories", Some("Article Category List"), SuperAdminMeta)]),
    CatchAll
  ]

  /**
   * The path a definition is registered under: a child path that does not start with '/'
   * is appended to its parent's path, with one '/' between them.
   */
  function JoinPath(parent: Option<string>, path: string): (r: string)
    ensures parent.None? || (|path| > 0 && path[0] == '/') ==> r == path
    ensures parent.Some? && !(|path| > 0 && path[0] == '/') ==> parent.value <= r
  {
    match parent
    case None => path
    case Some(p) =>
      if |path| > 0 && path[0] == '/' then path
      else if path == "" then p
      else p + (if |p| > 0 && p[|p| - 1] == '/' then "" else "/") + path
  }

  function Normalize(r: RouteRecordRaw, parent: Option<string>): RouteRecord {
    RouteRecord(JoinPath(parent, r.path), r.name, r.meta.roles)
  }

  /** The records a table becomes once registered: each definition, then its children, in order. */
  function Flatten(rs: seq<RouteRecordRaw>, parent: Option<string>): (r: seq<RouteRecord>)
    ensures |r| >= |rs|
    decreases rs
  {
    if rs == [] then []
    else
      var rec := Normalize(rs[0], parent);
      [rec] + Flatten(rs[0].children, Some(rec.path)) + Flatten(rs[1..], parent)
  }

  function Registered(rs: seq<RouteRecordRaw>): (r: seq<RouteRecord>)
    ensures |r| >= |rs|
  {
    Flatten(rs, None)
  }

  /** Registering two tables one after the other registers their records one after the other. */
  lemma {:induction false} FlattenConcat(a: seq<RouteRecordRaw>, b: seq<RouteRecordRaw>, parent: Option<string>)
    ensures Flatten(a + b, parent) == Flatten(a, parent) + Flatten(b, parent)
    decreases a
  {
    if a == [] {
      assert a + b == b;
    } else {
      var rec := Normalize(a[0], parent);
      var kids := Flatten(a[0].children, Some(rec.path));
      calc {
        Flatten(a + b, parent);
        == { assert (a + b)[0] == a[0]; assert (a + b)[1..] == a[1..] + b; }
        [rec] + kids + Flatten(a[1..] + b, parent);
        == { FlattenConcat(a[1..], b, parent); }
        [rec] + kids + (Flatten(a[1..], parent) + Flatten(b, parent));
      }
    }
  }

  // ---------------------------------------------------------------------------------------
  // Which records a reset removes

  /** A record that resetRouter removes: it has a non-empty name and a non-empty role list. */
  predicate Gated(r: RouteRecord) {
    r.name.Some? && r.name.value != "" && r.roles.Some? && |r.roles.value| > 0
  }

  /** The records that survive a reset, in their order. */
  function Ungated(s: seq<RouteRecord>): (r: seq<RouteRecord>)
    ensures |r| <= |s|
    decreases |s|
  {
    if s == [] then []
    else (if Gated(s[0]) then [] else [s[0]]) + Ungated(s[1..])
  }

  /** The names resetRouter passes to removeRoute, in order. */
  function GatedNames(s: seq<RouteRecord>): (r: seq<string>)
    ensures |r| <= |s|
    decreases |s|
  {
    if s == [] then []
    else (if Gated(s[0]) then [s[0].name.value] else []) + GatedNames(s[1..])
  }

  /** A removal during reset throws: some gated record's name is one the router fails on. */
  predicate RemovalThrows(s: seq<RouteRecord>, failing: set<string>) {
    exists k :: 0 <= k < |s| && Gated(s[k]) && s[k].name.value in failing
  }

  /** A record survives a reset exactly when it was there and is not gated. */
  lemma {:induction false} UngatedMembers(s: seq<RouteRecord>)
    ensures forall x :: x in Ungated(s) <==> x in s && !Gated(x)
    decreases |s|
  {
    if s != [] {
      UngatedMembers(s[1..]);
      assert s == [s[0]] + s[1..];
    }
  }

  /** The names a reset removes are the names of the gated records. */
  lemma {:induction false} GatedNamesMembers(s: seq<RouteRecord>)
    ensures forall n :: n in GatedNames(s) <==> exists x :: x in s && Gated(x) && x.name == Some(n)
    decreases |s|
  {
    if s != [] {
      GatedNamesMembers(s[1..]);
      assert s == [s[0]] + s[1..];
    }
  }

  lemma {:induction false} UngatedConcat(a: seq<RouteRecord>, b: seq<RouteRecord>)
    ensures Ungated(a + b) == Ungated(a) + Ungated(b)
    decreases |a|
  {
    if a == [] {
      assert a + b == b;
    } else {
      var head := if Gated(a[0]) then [] else [a[0]];
      calc {
        Ungated(a + b);
        == { assert (a + b)[0] == a[0]; assert (a + b)[1..] == a[1..] + b; }
        head + Ungated(a[1..] + b);
        == { UngatedConcat(a[1..], b); }
        head + (Ungated(a[1..]) + Ungated(b));
      }
    }
  }

  lemma {:induction false} GatedNamesConcat(a: seq<RouteRecord>, b: seq<RouteRecord>)
    ensures GatedNames(a + b) == GatedNames(a) + GatedNames(b)
    decreases |a|
  {
    if a == [] {
      assert a + b == b;
    } else {
      var head := if Gated(a[0]) then [a[0].name.value] else [];
      calc {
        GatedNames(a + b);
        == { assert (a + b)[0] == a[0]; assert (a + b)[1..] == a[1..] + b; }
        head + GatedNames(a[1..] + b);
        == { GatedNamesConcat(a[1..], b); }
        head + (GatedNames(a[1..]) + GatedNames(b));
      }
    }
  }

  /** A reset leaves a sequence unchanged exactly when it holds no gated record. */
  lemma {:induction false} UngatedIdentity(s: seq<RouteRecord>)
    ensures Ungated(s) == s <==> forall x :: x in s ==> !Gated(x)
    decreases |s|
  {
    if s != [] {
      UngatedIdentity(s[1..]);
      assert s == [s[0]] + s[1..];
      if Gated(s[0]) {
        assert |Ungated(s)| <= |s[1..]| < |s|;
      }
    }
  }

  /** A sequence without gated records gives a reset nothing to remove, so nothing to throw on. */
  lemma {:induction false} NoGatedNoNames(s: seq<RouteRecord>)
    requires forall x :: x in s ==> !Gated(x)
    ensures GatedNames(s) == []
    ensures forall failing :: !RemovalThrows(s, failing)
    decreases |s|
  {
    if s != [] {
      assert s[0] in s;
      assert forall x :: x in s[1..] ==> x in s;
      NoGatedNoNames(s[1..]);
    }
    forall failing ensures !RemovalThrows(s, failing) {
      forall k | 0 <= k < |s| ensures !Gated(s[k]) {
        assert s[k] in s;
      }
    }
  }

  /** What a reset leaves holds no gated record, and a later reset finds nothing to remove. */
  lemma ResetRemovesAllGated(s: seq<RouteRecord>)
    ensures forall x :: x in Ungated(s) ==> !Gated(x)
    ensures GatedNames(Ungated(s)) == []
    ensures forall failing :: !RemovalThrows(Ungated(s), failing)
  {
    UngatedMembers(s);
    NoGatedNoNames(Ungated(s));
  }

  /**
   * A second reset after a successful one can make no removal, so it cannot throw, and
   * it leaves the records as the first left them.
   */
  lemma ResetIdempotent(s: seq<RouteRecord>, failing: set<string>)
    ensures Ungated(Ungated(s)) == Ungated(s)
    ensures GatedNames(Ungated(s)) == []
    ensures !RemovalThrows(Ungated(s), failing)
  {
    ResetRemovesAllGated(s);
    UngatedIdentity(Ungated(s));
  }

  /** A record with roles but no name is gated in intent, yet survives every reset. */
  lemma UnnamedGatedSurvives(s: seq<RouteRecord>, x: RouteRecord)
    requires x in s && x.name.None? && x.roles.Some? && |x.roles.value| > 0
    ensures x in Ungated(s)
  {
    UngatedMembers(s);
  }

  // ---------------------------------------------------------------------------------------
  // Names in the live router

  /** How many records carry the name n. */
  function CountNamed(s: seq<RouteRecord>, n: string): (c: nat)
    ensures c <= |s|
    decreases |s|
  {
    if s == [] then 0
    else (if s[0].name == Some(n) then 1 else 0) + CountNamed(s[1..], n)
  }

  lemma {:induction false} CountNamedZero(s: seq<RouteRecord>, n: string)
    ensures CountNamed(s, n) == 0 <==> forall x :: x in s ==> x.name != Some(n)
    decreases |s|
  {
    if s != [] {
      CountNamedZero(s[1..], n);
      assert s == [s[0]] + s[1..];
    }
  }

  /** No two records share a name (the router keeps one record per name). */
  ghost predicate NamesUnique(s: seq<RouteRecord>) {
    forall n :: CountNamed(s, n) <= 1
  }

  /** The records left after removing the record named n, in their order. */
  function RemoveNamed(s: seq<RouteRecord>, n: string): (r: seq<RouteRecord>)
    ensures |r| <= |s|
    decreases |s|
  {
    if s == [] then []
    else (if s[0].name == Some(n) then [] else [s[0]]) + RemoveNamed(s[1..], n)
  }

  lemma {:induction false} RemoveNamedMembers(s: seq<RouteRecord>, n: string)
    ensures forall x :: x in RemoveNamed(s, n) <==> x in s && x.name != Some(n)
    decreases |s|
  {
    if s != [] {
      RemoveNamedMembers(s[1..], n);
      assert s == [s[0]] + s[1..];
    }
  }

  lemma {:induction false} CountNamedConcat(a: seq<RouteRecord>, b: seq<RouteRecord>, n: string)
    ensures CountNamed(a + b, n) == CountNamed(a, n) + CountNamed(b, n)
    decreases |a|
  {
    if a == [] {
      assert a + b == b;
    } else {
      assert (a + b)[0] == a[0];
      assert (a + b)[1..] == a[1..] + b;
      CountNamedConcat(a[1..], b, n);
    }
  }

  lemma {:induction false} CountNamedUngated(s: seq<RouteRecord>, n: string)
    ensures CountNamed(Ungated(s), n) <= CountNamed(s, n)
    decreases |s|
  {
    if s != [] {
      CountNamedUngated(s[1..], n);
      var head := if Gated(s[0]) then [] else [s[0]];
      CountNamedConcat(head, Ungated(s[1..]), n);
    }
  }

  lemma {:induction false} CountNamedRemoveNamed(s: seq<RouteRecord>, name: string, n: string)
    ensures CountNamed(RemoveNamed(s, name), n) <= CountNamed(s, n)
    decreases |s|
  {
    if s != [] {
      CountNamedRemoveNamed(s[1..], name, n);
      var head := if s[0].name == Some(name) then [] else [s[0]];
      CountNamedConcat(head, RemoveNamed(s[1..], name), n);
    }
  }

  /** Removing a record keeps the names of the rest unique. */
  lemma RemoveNamedUnique(s: seq<RouteRecord>, name: string)
    requires NamesUnique(s)
    ensures NamesUnique(RemoveNamed(s, name))
  {
    forall n ensures CountNamed(RemoveNamed(s, name), n) <= 1 {
      CountNamedRemoveNamed(s, name, n);
    }
  }

  lemma {:induction false} RemoveNamedConcat(a: seq<RouteRecord>, b: seq<RouteRecord>, n: string)
    ensures RemoveNamed(a + b, n) == RemoveNamed(a, n) + RemoveNamed(b, n)
    decreases |a|
  {
    if a == [] {
      assert a + b == b;
    } else {
      var head := if a[0].name == Some(n) then [] else [a[0]];
      calc {
        RemoveNamed(a + b, n);
        == { assert (a + b)[0] == a[0]; assert (a + b)[1..] == a[1..] + b; }
        head + RemoveNamed(a[1..] + b, n);
        == { RemoveNamedConcat(a[1..], b, n); }
        head + (RemoveNamed(a[1..], n) + RemoveNamed(b, n));
      }
    }
  }

  lemma {:induction false} RemoveNamedAbsent(s: seq<RouteRecord>, n: string)
    requires CountNamed(s, n) == 0
    ensures RemoveNamed(s, n) == s
    decreases |s|
  {
    if s != [] {
      RemoveNamedAbsent(s[1..], n);
    }
  }

  /** Dropping gated records keeps the names of what is left unique. */
  lemma UngatedPrefixUnique(a: seq<RouteRecord>, b: seq<RouteRecord>)
    requires NamesUnique(a + b)
    ensures NamesUnique(Ungated(a) + b)
  {
    forall n ensures CountNamed(Ungated(a) + b, n) <= 1 {
      CountNamedConcat(Ungated(a), b, n);
      CountNamedConcat(a, b, n);
      CountNamedUngated(a, n);
    }
  }

  // ---------------------------------------------------------------------------------------
  // The reset walk, record by record

  /** The records left once the walk over s has passed its first i records without a throw. */
  function WalkedTo(s: seq<RouteRecord>, i: nat): seq<RouteRecord>
    requires i <= |s|
  {
    Ungated(s[..i]) + s[i..]
  }

  /** The walk starts from the whole table and, passing every record, ends where a reset does. */
  lemma WalkEnds(s: seq<RouteRecord>)
    ensures WalkedTo(s, 0) == s
    ensures WalkedTo(s, |s|) == Ungated(s)
  {
    assert s[..0] == [] && s[0..] == s;
    assert s[..|s|] == s && s[|s|..] == [];
  }

  /** At every point of the walk the live records still have unique names. */
  lemma WalkedToUnique(s: seq<RouteRecord>, i: nat)
    requires i <= |s| && NamesUnique(s)
    ensures NamesUnique(WalkedTo(s, i))
  {
    assert s[..i] + s[i..] == s;
    UngatedPrefixUnique(s[..i], s[i..]);
  }

  /** Passing a record that is not gated changes nothing. */
  lemma WalkSkip(s: seq<RouteRecord>, i: nat)
    requires i < |s| && !Gated(s[i])
    ensures WalkedTo(s, i + 1) == WalkedTo(s, i)
  {
    assert s[..i + 1] == s[..i] + [s[i]];
    UngatedConcat(s[..i], [s[i]]);
    assert s[i..] == [s[i]] + s[i + 1..];
  }

  /** The next record of the walk sits right after the survivors of the records passed. */
  lemma NextRecordPosition(s: seq<RouteRecord>, i: nat)
    requires i < |s|
    ensures |Ungated(s[..i])| < |WalkedTo(s, i)|
    ensures WalkedTo(s, i)[|Ungated(s[..i])|] == s[i]
  {
  }

  /**
   * One step of the walk over a gated record: with unique names, removing its name removes
   * exactly that record.
   */
  lemma ResetStep(snapshot: seq<RouteRecord>, i: nat)
    requires i < |snapshot| && NamesUnique(snapshot) && Gated(snapshot[i])
    ensures RemoveNamed(WalkedTo(snapshot, i), snapshot[i].name.value) == WalkedTo(snapshot, i + 1)
  {
    var n := snapshot[i].name.value;
    var pre, x, post := snapshot[..i], snapshot[i], snapshot[i + 1..];
    assert snapshot[i..] == [x] + post;
    assert CountNamed(pre, n) == 0 && CountNamed(post, n) == 0 by {
      assert snapshot == pre + ([x] + post);
      CountNamedConcat(pre, [x] + post, n);
      CountNamedConcat([x], post, n);
      assert CountNamed(snapshot, n) <= 1;
    }
    assert CountNamed(Ungated(pre), n) == 0 by {
      CountNamedUngated(pre, n);
    }
    assert RemoveNamed([x] + post, n) == post by {
      RemoveNamedConcat([x], post, n);
      RemoveNamedAbsent(post, n);
      assert RemoveNamed([x], n) == [];
    }
    assert RemoveNamed(Ungated(pre) + ([x] + post), n) == Ungated(pre) + post by {
      RemoveNamedConcat(Ungated(pre), [x] + post, n);
      RemoveNamedAbsent(Ungated(pre), n);
    }
    assert Ungated(snapshot[..i + 1]) == Ungated(pre) by {
      assert snapshot[..i + 1] == pre + [x];
      UngatedConcat(pre, [x]);
      assert Ungated([x]) == [];
    }
  }

  /** The names passed to removeRoute grow by the name of the record just visited, if it is gated. */
  lemma GatedNamesStep(s: seq<RouteRecord>, i: nat)
    requires i < |s|
    ensures GatedNames(s[..i + 1]) == GatedNames(s[..i]) + GatedNames([s[i]])
  {
    assert s[..i + 1] == s[..i] + [s[i]];
    GatedNamesConcat(s[..i], [s[i]]);
  }

  /** Extending the walked prefix by one record that does not throw keeps the walk free of throws. */
  lemma RemovalThrowsStep(s: seq<RouteRecord>, i: nat, failing: set<string>)
    requires i < |s| && !RemovalThrows(s[..i], failing)
    requires !(Gated(s[i]) && s[i].name.value in failing)
    ensures !RemovalThrows(s[..i + 1], failing)
  {
    var t := s[..i + 1];
    forall k | 0 <= k < |t| && Gated(t[k])
      ensures t[k].name.value !in failing
    {
      if k < i {
        assert t[k] == s[..i][k];
      }
    }
  }

  /** The position of the first gated record whose removal throws: where a reset stops. */
  function FirstThrow(s: seq<RouteRecord>, failing: set<string>): (k: nat)
    requires RemovalThrows(s, failing)
    ensures k < |s| && Gated(s[k]) && s[k].name.value in failing
    ensures !RemovalThrows(s[..k], failing)
    decreases |s|
  {
    if Gated(s[0]) && s[0].name.value in failing then
      assert s[..0] == [];
      0
    else
      ThrowsInTail(s, failing);
      var k := FirstThrow(s[1..], failing);
      NoThrowShift(s, k, failing);
      1 + k
  }

  lemma ThrowsInTail(s: seq<RouteRecord>, failing: set<string>)
    requires RemovalThrows(s, failing) && !(Gated(s[0]) && s[0].name.value in failing)
    ensures RemovalThrows(s[1..], failing)
  {
    var k :| 0 <= k < |s| && Gated(s[k]) && s[k].name.value in failing;
    assert k > 0 && s[1..][k - 1] == s[k];
  }

  lemma NoThrowShift(s: seq<RouteRecord>, k: nat, failing: set<string>)
    requires k < |s| - 1 && !(Gated(s[0]) && s[0].name.value in failing)
    requires !RemovalThrows(s[1..][..k], failing)
    ensures !RemovalThrows(s[..k + 1], failing)
  {
    var t := s[..k + 1];
    forall j | 0 <= j < |t| && Gated(t[j])
      ensures t[j].name.value !in failing
    {
      if j > 0 {
        assert t[j] == s[1..][..k][j - 1];
      }
    }
  }

  /** A walk that reaches a throwing record without an earlier throw stops there. */
  lemma FirstThrowAt(s: seq<RouteRecord>, i: nat, failing: set<string>)
    requires i < |s| && Gated(s[i]) && s[i].name.value in failing
    requires !RemovalThrows(s[..i], failing)
    ensures RemovalThrows(s, failing) && FirstThrow(s, failing) == i
  {
  }

  lemma {:induction false} GatedNamesCount(s: seq<RouteRecord>, n: string)
    ensures multiset(GatedNames(s))[n] <= CountNamed(s, n)
    decreases |s|
  {
    if s != [] {
      GatedNamesCount(s[1..], n);
      var head := if Gated(s[0]) then [s[0].name.value] else [];
      assert GatedNames(s) == head + GatedNames(s[1..]);
      assert multiset(GatedNames(s)) == multiset(head) + multiset(GatedNames(s[1..]));
    }
  }

  /** With unique names, a reset never passes the same name to removeRoute twice. */
  lemma GatedNamesDistinct(s: seq<RouteRecord>)
    requires NamesUnique(s)
    ensures forall n :: multiset(GatedNames(s))[n] <= 1
  {
    forall n ensures multiset(GatedNames(s))[n] <= 1 {
      GatedNamesCount(s, n);
    }
  }

  // ---------------------------------------------------------------------------------------
  // The two tables

  const SuperAdmin: Option<seq<Role>> := Some(["SUPER_ADMIN"])

  /** The records the constant routes register, written out. */
  const ConstantRecords: seq<RouteRecord> := [
    RouteRecord("/redirect", None, None),
    RouteRecord("/redirect/:path(.*)", None, None),
    RouteRecord("/403", None, None),
    RouteRecord("/404", None, None),
    RouteRecord("/login", None, None),
    RouteRecord("/", None, None),
    RouteRecord("/dashboard", Some("Dashboard"), None),
    RouteRecord("/userInfo", None, None),
    RouteRecord("/current", Some("个人中心"), None)]

  /** The records the gated routes register, written out. */
  const AsyncRecords: seq<RouteRecord> := [
    RouteRecord("/users", None, None),
    RouteRecord("/users", Some("User List"), SuperAdmin),
    RouteRecord("/roles", None, None),
    RouteRecord("/roles", Some("Role List"), SuperAdmin),
    RouteRecord("/articles", None, None),
    RouteRecord("/articles", Some("Article List"), SuperAdmin),
    RouteRecord("/tags", Some("Article Tag List"), SuperAdmin),
    RouteRecord("/categories", Some("Article Category List"), SuperAdmin),
    RouteRecord("/:pathMatch(.*)*", Some("ErrorPage"), None)]

  /** NamesUnique stated pairwise, which is how it is checked on a concrete table. */
  predicate DistinctNames(s: seq<RouteRecord>) {
    forall i, j :: 0 <= i < j < |s| && s[i].name.Some? ==> s[i].name != s[j].name
  }

  lemma {:induction false} DistinctNamesUnique(s: seq<RouteRecord>)
    requires DistinctNames(s)
    ensures NamesUnique(s)
    decreases |s|
  {
    if s != [] {
      DistinctNamesUnique(s[1..]);
      forall n | s[0].name == Some(n) ensures CountNamed(s[1..], n) == 0 {
        CountNamedZero(s[1..], n);
        forall x | x in s[1..] ensures x.name != Some(n) {
          var j :| 0 <= j < |s[1..]| && s[1..][j] == x;
          assert s[j + 1] == x;
        }
      }
    }
  }

  /** Unfolding Flatten once at the front of a table. */
  lemma FlattenFrom(rs: seq<RouteRecordRaw>, k: nat, parent: Option<string>)
    requires k < |rs|
    ensures Flatten(rs[k..], parent) ==
      [Normalize(rs[k], parent)] + Flatten(rs[k].children, Some(JoinPath(parent, rs[k].path))) + Flatten(rs[k + 1..], parent)
  {
    assert rs[k..][0] == rs[k];
    assert rs[k..][1..] == rs[k + 1..];
  }

  /** The records each trailing part of the constant table registers. */
  lemma ConstantTail5()
    ensures Flatten(ConstantRoutes[5..], None) == ConstantRecords[7..]
  {
    var c := ConstantRoutes;
    assert c[6..] == [];
    FlattenFrom(c, 5, None);
    FlattenFrom(c[5].children, 0, Some("/userInfo"));
  }

  lemma ConstantTail4()
    ensures Flatten(ConstantRoutes[4..], None) == ConstantRecords[5..]
  {
    var c := ConstantRoutes;
    ConstantTail5();
    FlattenFrom(c, 4, None);
    FlattenFrom(c[4].children, 0, Some("/"));
    assert JoinPath(Some("/"), "dashboard") == "/dashboard";
  }

  lemma ConstantTail1()
    ensures Flatten(ConstantRoutes[1..], None) == ConstantRecords[2..]
  {
    var c := ConstantRoutes;
    ConstantTail4();
    FlattenFrom(c, 3, None);
    FlattenFrom(c, 2, None);
    FlattenFrom(c, 1, None);
  }

  lemma RegisteredConstantRoutes()
    ensures Registered(ConstantRoutes) == ConstantRecords
  {
    var c := ConstantRoutes;
    ConstantTail1();
    FlattenFrom(c, 0, None);
    FlattenFrom(c[0].children, 0, Some("/redirect"));
    assert c[0..] == c;
  }

  /** The records the articles group registers under "/articles". */
  lemma ArticleChildren()
    ensures Flatten(AsyncRoutes[2].children, Some("/articles")) == AsyncRecords[5..8]
  {
    var articles := AsyncRoutes[2].children;
    assert articles[3..] == [];
    FlattenFrom(articles, 2, Some("/articles"));
    FlattenFrom(articles, 1, Some("/articles"));
    FlattenFrom(articles, 0, Some("/articles"));
    assert articles[0..] == articles;
  }

  lemma AsyncTail2()
    ensures Flatten(AsyncRoutes[2..], None) == AsyncRecords[4..]
  {
    var a := AsyncRoutes;
    assert a[4..] == [];
    FlattenFrom(a, 3, None);
    ArticleChildren();
    FlattenFrom(a, 2, None);
  }

  lemma AsyncTail1()
    ensures Flatten(AsyncRoutes[1..], None) == AsyncRecords[2..]
  {
    var a := AsyncRoutes;
    AsyncTail2();
    FlattenFrom(a, 1, None);
    FlattenFrom(a[1].children, 0, Some("/roles"));
  }

  lemma RegisteredAsyncRoutes()
    ensures Registered(AsyncRoutes) == AsyncRecords
  {
    var a := AsyncRoutes;
    AsyncTail1();
    FlattenFrom(a, 0, None);
    FlattenFrom(a[0].children, 0, Some("/users"));
    assert a[0..] == a;
  }

  /** The constant records: distinct names and no roles anywhere. */
  lemma ConstantRecordsFacts()
    ensures DistinctNames(ConstantRecords)
    ensures forall i :: 0 <= i < |ConstantRecords| ==> ConstantRecords[i].roles.None?
  {
  }

  /** The gated records: distinct names, and every role list is SUPER_ADMIN on a named record. */
  lemma AsyncRecordsFacts()
    ensures DistinctNames(AsyncRecords)
    ensures forall i :: 0 <= i < |AsyncRecords| ==> AsyncRecords[i].roles.None? || AsyncRecords[i].roles == SuperAdmin
    ensures forall i :: 0 <= i < |AsyncRecords| && AsyncRecords[i].roles.Some? ==>
      AsyncRecords[i].name.Some? && AsyncRecords[i].name.value != ""
  {
  }

  /** No constant route is gated, so a reset leaves all of them in place; their names are distinct. */
  lemma ConstantRoutesWellFormed()
    ensures NamesUnique(Registered(ConstantRoutes))
    ensures forall x :: x in Registered(ConstantRoutes) ==> !Gated(x)
    ensures Ungated(Registered(ConstantRoutes)) == Registered(ConstantRoutes)
  {
    RegisteredConstantRoutes();
    ConstantRecordsFacts();
    DistinctNamesUnique(ConstantRecords);
    UngatedIdentity(ConstantRecords);
  }

  /**
   * Every record of the gated table that carries roles has a non-empty name, so a reset
   * removes it; the names are distinct; the records a reset removes are exactly those
   * that require the SUPER_ADMIN role, and it keeps exactly those without roles.
   */
  lemma AsyncRoutesWellFormed()
    ensures NamesUnique(Registered(AsyncRoutes))
    ensures forall x :: x in Registered(AsyncRoutes) && x.roles.Some? && |x.roles.value| > 0 ==> Gated(x)
    ensures forall x :: x in Registered(AsyncRoutes) ==> (Gated(x) <==> x.roles == SuperAdmin)
    ensures forall x :: x in Registered(AsyncRoutes) ==> (!Gated(x) <==> x.roles.None?)
  {
    RegisteredAsyncRoutes();
    AsyncRecordsFacts();
    DistinctNamesUnique(AsyncRecords);
  }

  /** A record that is not gated and is last stays last after a reset. */
  lemma UngatedKeepsLast(s: seq<RouteRecord>)
    requires s != [] && !Gated(s[|s| - 1])
    ensures Ungated(s) != [] && Ungated(s)[|Ungated(s)| - 1] == s[|s| - 1]
  {
    var n := |s| - 1;
    assert s == s[..n] + [s[n]];
    UngatedConcat(s[..n], [s[n]]);
  }

  /**
   * The catch-all route is the last entry of the gated table and the last record it
   * registers; it has a name but no roles, so a reset keeps it, still in last place.
   */
  lemma CatchAllIsLast()
    ensures AsyncRoutes[|AsyncRoutes| - 1] == CatchAll
    ensures CatchAll.path == "/:pathMatch(.*)*" && CatchAll.name == Some("ErrorPage")
    ensures CatchAll.children == [] && CatchAll.meta.roles.None?
    ensures var r := Registered(ConstantRoutes + AsyncRoutes);
      r != [] && r[|r| - 1] == Normalize(CatchAll, None) && !Gated(r[|r| - 1]) &&
      Ungated(r) != [] && Ungated(r)[|Ungated(r)| - 1] == r[|r| - 1]
  {
    RegisteredAsyncRoutes();
    FlattenConcat(ConstantRoutes, AsyncRoutes, None);
    UngatedKeepsLast(Registered(ConstantRoutes + AsyncRoutes));
  }

  lemma TablesDistinctPairs()
    ensures DistinctNames(ConstantRecords + AsyncRecords)
  {
  }

  lemma TablesDistinctNames()
    ensures NamesUnique(ConstantRecords + AsyncRecords)
  {
    TablesDistinctPairs();
    DistinctNamesUnique(ConstantRecords + AsyncRecords);
  }

  /** With every route of both tables registered, no two records share a name. */
  lemma FullInstallUnique()
    ensures NamesUnique(Registered(ConstantRoutes + AsyncRoutes))
  {
    RegisteredConstantRoutes();
    RegisteredAsyncRoutes();
    FlattenConcat(ConstantRoutes, AsyncRoutes, None);
    TablesDistinctNames();
  }

  /**
   * With every route of both tables registered, a reset leaves the constant routes, then
   * the records of the gated table that carry no roles: the page layouts and the catch-all.
   */
  lemma ResetAfterFullInstall()
    ensures Ungated(Registered(ConstantRoutes + AsyncRoutes)) == Registered(ConstantRoutes) + Ungated(Registered(AsyncRoutes))
    ensures forall x :: x in Ungated(Registered(AsyncRoutes)) <==> x in Registered(AsyncRoutes) && x.roles.None?
  {
    FlattenConcat(ConstantRoutes, AsyncRoutes, None);
    UngatedConcat(Registered(ConstantRoutes), Registered(AsyncRoutes));
    ConstantRoutesWellFormed();
    AsyncRoutesWellFormed();
    UngatedMembers(Registered(AsyncRoutes));
  }
}
