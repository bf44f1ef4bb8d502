/**
  The change set of a SIGHUP reload (internal/embedded/reload.go): the two-index
  merge over sorted host lists, and what makes a reload a no-op.
 */
module ReloadDiff {
  import opened Options
  import opened Text

  // ----- The order of strings

  predicate Less(a: string, b: string)
  {
    b != [] && (a == [] || a[0] < b[0] || (a[0] == b[0] && Less(a[1..], b[1..])))
  }

  predicate Leq(a: string, b: string)
  {
    a == b || Less(a, b)
  }

  lemma {:induction false} LessTotal(a: string, b: string)
    ensures a == b || Less(a, b) || Less(b, a)
  {
    if a != [] && b != [] && a[0] == b[0] {
      LessTotal(a[1..], b[1..]);
      assert a == [a[0]] + a[1..] && b == [b[0]] + b[1..];
    }
  }

  lemma {:induction false} LessIrreflexive(a: string)
    ensures !Less(a, a)
  {
    if a != [] {
      LessIrreflexive(a[1..]);
    }
  }

  lemma {:induction false} LessTransitive(a: string, b: string, c: string)
    requires Less(a, b) && Less(b, c)
    ensures Less(a, c)
  {
    if a != [] && a[0] == b[0] == c[0] {
      LessTransitive(a[1..], b[1..], c[1..]);
    }
  }

  predicate Sorted(s: seq<string>)
  {
    forall i, j :: 0 <= i < j < |s| ==> Leq(s[i], s[j])
  }

  /** What is below the head of a sorted list is not in it. */
  lemma {:induction false} BelowHead(a: string, s: seq<string>)
    requires Sorted(s) && s != [] && Less(a, s[0])
    ensures a !in s
    ensures forall i :: 0 <= i < |s| ==> Less(a, s[i])
  {
    forall i | 0 <= i < |s| ensures Less(a, s[i]) && a != s[i] {
      if i > 0 && s[0] != s[i] {
        LessTransitive(a, s[0], s[i]);
      }
      if a == s[i] {
        LessIrreflexive(a);
      }
    }
  }

  // ----- The merge

  /** (added, removed) of two lists. */
  function Diff(old': seq<string>, new': seq<string>): (d: (seq<string>, seq<string>))
    decreases |old'| + |new'|
  {
    if old' == [] || new' == [] then (new', old')
    else if old'[0] == new'[0] then Diff(old'[1..], new'[1..])
    else if Less(old'[0], new'[0]) then
      var d := Diff(old'[1..], new'); (d.0, [old'[0]] + d.1)
    else
      var d := Diff(old', new'[1..]); ([new'[0]] + d.0, d.1)
  }

  /** Both lists are merged up to i and j. */
  predicate Merged(old': seq<string>, new': seq<string>, i: nat, j: nat, added: seq<string>, removed: seq<string>)
    requires i <= |old'| && j <= |new'|
  {
    var rest := Diff(old'[i..], new'[j..]);
    added + rest.0 == Diff(old', new').0 && removed + rest.1 == Diff(old', new').1
  }

  lemma {:induction false} MergeStep(old': seq<string>, new': seq<string>, i: nat, j: nat, added: seq<string>,
    removed: seq<string>)
    requires i < |old'| && j < |new'| && Merged(old', new', i, j, added, removed)
    ensures old'[i] == new'[j] ==> Merged(old', new', i + 1, j + 1, added, removed)
    ensures old'[i] != new'[j] && Less(old'[i], new'[j]) ==> Merged(old', new', i + 1, j, added, removed + [old'[i]])
    ensures old'[i] != new'[j] && !Less(old'[i], new'[j]) ==> Merged(old', new', i, j + 1, added + [new'[j]], removed)
  {
    assert old'[i..][1..] == old'[i + 1..] && new'[j..][1..] == new'[j + 1..];
    AppendAssoc(removed, [old'[i]], Diff(old'[i + 1..], new'[j..]).1);
    AppendAssoc(added, [new'[j]], Diff(old'[i..], new'[j + 1..]).0);
  }

  method StringSetDiff(old': seq<string>, new': seq<string>) returns (added: seq<string>, removed: seq<string>)
    ensures added == Diff(old', new').0 && removed == Diff(old', new').1
  {
    var i, j := 0, 0;
    added, removed := [], [];
    assert old'[0..] == old' && new'[0..] == new';
    while i < |old'| && j < |new'|
      invariant i <= |old'| && j <= |new'| && Merged(old', new', i, j, added, removed)
      decreases |old'| + |new'| - i - j
    {
      MergeStep(old', new', i, j, added, removed);
      if old'[i] == new'[j] {
        i, j := i + 1, j + 1;
      } else if Less(old'[i], new'[j]) {
        removed := removed + [old'[i]];
        i := i + 1;
      } else {
        added := added + [new'[j]];
        j := j + 1;
      }
    }
    removed := removed + old'[i..];
    added := added + new'[j..];
  }

  lemma {:induction false} Head(s: seq<string>)
    requires s != []
    ensures multiset(s) == multiset{s[0]} + multiset(s[1..])
    ensures Sorted(s) ==> Sorted(s[1..])
  {
    assert s == [s[0]] + s[1..];
  }

  lemma {:induction false} SameHead(x: string, o: multiset<string>, n: multiset<string>)
    ensures (multiset{x} + o) - (multiset{x} + n) == o - n
  {}

  lemma {:induction false} OwnHead(x: string, o: multiset<string>, n: multiset<string>)
    requires x !in n
    ensures (multiset{x} + o) - n == multiset{x} + (o - n)
    ensures n - (multiset{x} + o) == n - o
  {}

  /** The merge computes the two multiset differences. */
  lemma {:induction false} DiffIsDifference(old': seq<string>, new': seq<string>)
    requires Sorted(old') && Sorted(new')
    ensures var (added, removed) := Diff(old', new');
            && multiset(added) == multiset(new') - multiset(old')
            && multiset(removed) == multiset(old') - multiset(new')
    decreases |old'| + |new'|
  {
    if old' != [] && new' != [] {
      var a, o, b, n := old'[0], old'[1..], new'[0], new'[1..];
      Head(old');
      Head(new');
      if a == b {
        SameHead(a, multiset(o), multiset(n));
        SameHead(a, multiset(n), multiset(o));
        DiffIsDifference(o, n);
      } else if Less(a, b) {
        BelowHead(a, new');
        OwnHead(a, multiset(o), multiset(new'));
        DiffIsDifference(o, new');
      } else {
        LessTotal(a, b);
        BelowHead(b, old');
        OwnHead(b, multiset(n), multiset(old'));
        DiffIsDifference(old', n);
      }
    }
  }

  lemma {:induction false} DiffIsSorted(old': seq<string>, new': seq<string>)
    requires Sorted(old') && Sorted(new')
    ensures Sorted(Diff(old', new').0) && Sorted(Diff(old', new').1)
    ensures forall x :: x in Diff(old', new').0 ==> x in new'
    ensures forall x :: x in Diff(old', new').1 ==> x in old'
    decreases |old'| + |new'|
  {
    if old' != [] && new' != [] {
      Head(old');
      Head(new');
      if old'[0] == new'[0] {
        DiffIsSorted(old'[1..], new'[1..]);
      } else if Less(old'[0], new'[0]) {
        DiffIsSorted(old'[1..], new');
        ConsSorted(old'[0], Diff(old'[1..], new').1, old'[1..]);
      } else {
        DiffIsSorted(old', new'[1..]);
        ConsSorted(new'[0], Diff(old', new'[1..]).0, new'[1..]);
      }
    }
  }

  lemma {:induction false} ConsSorted(x: string, s: seq<string>, t: seq<string>)
    requires Sorted(s) && Sorted([x] + t) && forall y :: y in s ==> y in t
    ensures Sorted([x] + s)
  {
    forall j | 0 <= j < |s| ensures Leq(x, s[j]) {
      assert s[j] in t;
      var k :| 0 <= k < |t| && t[k] == s[j];
      assert ([x] + t)[k + 1] == s[j] && ([x] + t)[0] == x;
    }
  }

  /** Applying the change set to the old list gives the new one, and nothing is
      both added and removed. */
  lemma {:induction false} DiffApplies(old': seq<string>, new': seq<string>)
    requires Sorted(old') && Sorted(new')
    ensures var (added, removed) := Diff(old', new');
            && multiset(old') - multiset(removed) + multiset(added) == multiset(new')
            && multiset(added) !! multiset(removed)
            && Sorted(added) && Sorted(removed)
  {
    DiffIsDifference(old', new');
    DiffIsSorted(old', new');
  }

  // ----- Routes and the whole diff

  datatype Url = Url(user: string, password: string, host: string)

  /** The certificate, its key and the CA bundle, as loaded. */
  datatype Tls = Tls(certificate: string, key: string, ca: string)

  datatype ServerOptions = ServerOptions(
    routes: seq<Option<Url>>, password: string, serverName: string, host: string, port: int, clusterName: string,
    clusterHost: string, clusterPort: int, username: string, storeDir: string, tls: Option<Tls>)

  function Hosts(routes: seq<Option<Url>>): (hs: seq<string>)
  {
    if routes == [] then []
    else (if routes[0].None? then [] else [routes[0].value.host]) + Hosts(routes[1..])
  }

  /** The routes to a host. */
  function RoutesTo(routes: seq<Option<Url>>, h: string): (is': set<nat>)
  {
    set i: nat | i < |routes| && routes[i].Some? && routes[i].value.host == h
  }

  lemma {:induction false} HostsMore(routes: seq<Option<Url>>, r: Option<Url>)
    ensures Hosts(routes + [r]) == Hosts(routes) + if r.Some? then [r.value.host] else []
  {
    if routes != [] {
      HostsMore(routes[1..], r);
      assert (routes + [r])[1..] == routes[1..] + [r];
    }
  }

  lemma {:induction false} RoutesToMore(routes: seq<Option<Url>>, r: Option<Url>, h: string)
    ensures |RoutesTo(routes + [r], h)| == |RoutesTo(routes, h)| + if r.Some? && r.value.host == h then 1 else 0
  {
    var all, n := routes + [r], |routes|;
    assert all[n] == r && forall i :: 0 <= i < n ==> all[i] == routes[i];
    assert RoutesTo(all, h) == RoutesTo(routes, h) + if r.Some? && r.value.host == h then {n} else {};
  }

  /** A host is listed once for each route to it. */
  lemma {:induction false} HostsMeaning(routes: seq<Option<Url>>, h: string)
    ensures multiset(Hosts(routes))[h] == |RoutesTo(routes, h)|
  {
    if routes == [] {
      assert RoutesTo(routes, h) == {};
    } else {
      var init, r := routes[..|routes| - 1], routes[|routes| - 1];
      assert routes == init + [r];
      HostsMeaning(init, h);
      HostsMore(init, r);
      RoutesToMore(init, r, h);
    }
  }

  function Insert(x: string, s: seq<string>): (t: seq<string>)
    requires Sorted(s)
    ensures Sorted(t) && multiset(t) == multiset(s) + multiset{x}
  {
    if s == [] then [x]
    else if Leq(x, s[0]) then
      BelowAll(x, s);
      [x] + s
    else
      LessTotal(x, s[0]);
      Head(s);
      var t := Insert(x, s[1..]);
      InsertBelow(s[0], x, s[1..], t);
      [s[0]] + t
  }

  lemma {:induction false} BelowAll(x: string, s: seq<string>)
    requires Sorted(s) && s != [] && Leq(x, s[0])
    ensures Sorted([x] + s)
  {
    forall j | 0 <= j < |s| ensures Leq(x, s[j]) {
      if j > 0 && x != s[0] && s[0] != s[j] {
        LessTransitive(x, s[0], s[j]);
      }
    }
  }

  lemma {:induction false} InsertBelow(h: string, x: string, s: seq<string>, t: seq<string>)
    requires Sorted([h] + s) && Sorted(t) && Leq(h, x) && multiset(t) == multiset(s) + multiset{x}
    ensures Sorted([h] + t)
  {
    forall j | 0 <= j < |t| ensures Leq(h, t[j]) {
      assert t[j] in multiset(t);
      if t[j] != x {
        assert t[j] in s;
        var k :| 0 <= k < |s| && s[k] == t[j];
        assert ([h] + s)[k + 1] == t[j] && ([h] + s)[0] == h;
      }
    }
  }

  /** sort.Strings. */
  function Sort(s: seq<string>): (t: seq<string>)
    ensures Sorted(t) && multiset(t) == multiset(s)
  {
    if s == [] then [] else
      Head(s);
      Insert(s[0], Sort(s[1..]))
  }

  function NormalizeRouteHosts(o: ServerOptions): (hs: seq<string>)
  {
    Sort(Hosts(o.routes))
  }

  /** The routes differ only in their credentials. */
  predicate SameHosts(old': ServerOptions, new': ServerOptions)
  {
    && |old'.routes| == |new'.routes|
    && forall i :: 0 <= i < |old'.routes| ==>
         old'.routes[i].Some? == new'.routes[i].Some?
         && (old'.routes[i].Some? ==> old'.routes[i].value.host == new'.routes[i].value.host)
  }

  lemma {:induction false} SameHostsSameList(a: seq<Option<Url>>, b: seq<Option<Url>>)
    requires |a| == |b|
    requires forall i :: 0 <= i < |a| ==> a[i].Some? == b[i].Some? && (a[i].Some? ==> a[i].value.host == b[i].value.host)
    ensures Hosts(a) == Hosts(b)
  {
    if a != [] {
      SameHostsSameList(a[1..], b[1..]);
    }
  }

  datatype Diffs = Diffs(added: seq<string>, removed: seq<string>, rotated: bool, skipped: seq<string>)

  predicate IsEmpty(d: Diffs)
  {
    |d.added| == 0 && |d.removed| == 0 && !d.rotated && |d.skipped| == 0
  }

  /** The names of the startup-only keys that differ.  Of TLS only whether there is
      a configuration is compared. */
  function ChangedKeys(a: ServerOptions, b: ServerOptions): (keys: seq<string>)
    ensures keys == [] <==>
            b.(routes := a.routes, password := a.password, tls := a.tls) == a && b.tls.Some? == a.tls.Some?
  {
    (if a.serverName != b.serverName then ["cluster.node_id"] else [])
    + (if a.host != b.host || a.port != b.port then ["cluster.client_listen"] else [])
    + (if a.clusterName != b.clusterName then ["cluster.name"] else [])
    + (if a.clusterHost != b.clusterHost || a.clusterPort != b.clusterPort then ["cluster.routes_listen"] else [])
    + (if a.username != b.username then ["cluster.username"] else [])
    + (if a.storeDir != b.storeDir then ["cluster.jetstream_dir"] else [])
    + (if a.tls.Some? != b.tls.Some? then ["cluster.tls"] else [])
  }

  /** Which setting each key stands for. */
  lemma {:induction false} KeyMeaning(a: ServerOptions, b: ServerOptions, key: string)
    requires key in ChangedKeys(a, b)
    ensures || (key == "cluster.node_id" && a.serverName != b.serverName)
            || (key == "cluster.client_listen" && (a.host != b.host || a.port != b.port))
            || (key == "cluster.name" && a.clusterName != b.clusterName)
            || (key == "cluster.routes_listen" && (a.clusterHost != b.clusterHost || a.clusterPort != b.clusterPort))
            || (key == "cluster.username" && a.username != b.username)
            || (key == "cluster.jetstream_dir" && a.storeDir != b.storeDir)
            || (key == "cluster.tls" && a.tls.Some? != b.tls.Some?)
  {}

  lemma {:induction false} KeyIsListed(a: ServerOptions, b: ServerOptions)
    ensures a.serverName != b.serverName ==> "cluster.node_id" in ChangedKeys(a, b)
    ensures a.host != b.host || a.port != b.port ==> "cluster.client_listen" in ChangedKeys(a, b)
    ensures a.clusterName != b.clusterName ==> "cluster.name" in ChangedKeys(a, b)
    ensures a.clusterHost != b.clusterHost || a.clusterPort != b.clusterPort ==> "cluster.routes_listen" in ChangedKeys(a, b)
    ensures a.username != b.username ==> "cluster.username" in ChangedKeys(a, b)
    ensures a.storeDir != b.storeDir ==> "cluster.jetstream_dir" in ChangedKeys(a, b)
    ensures a.tls.Some? != b.tls.Some? ==> "cluster.tls" in ChangedKeys(a, b)
  {}

  function DiffOf(old': ServerOptions, new': ServerOptions): (d: Diffs)
  {
    var routes := Diff(NormalizeRouteHosts(old'), NormalizeRouteHosts(new'));
    Diffs(routes.0, routes.1, old'.password != new'.password, Sort(ChangedKeys(old', new')))
  }

  method ComputeDiff(old': ServerOptions, new': ServerOptions) returns (d: Diffs)
    ensures d == DiffOf(old', new')
    ensures multiset(d.added) == multiset(Hosts(new'.routes)) - multiset(Hosts(old'.routes))
    ensures multiset(d.removed) == multiset(Hosts(old'.routes)) - multiset(Hosts(new'.routes))
    ensures Sorted(d.added) && Sorted(d.removed) && Sorted(d.skipped)
    ensures d.rotated <==> old'.password != new'.password
    ensures multiset(d.skipped) == multiset(ChangedKeys(old', new'))
  {
    var oldRoutes, newRoutes := NormalizeRouteHosts(old'), NormalizeRouteHosts(new');
    var added, removed := StringSetDiff(oldRoutes, newRoutes);
    DiffIsDifference(oldRoutes, newRoutes);
    DiffIsSorted(oldRoutes, newRoutes);
    d := Diffs(added, removed, old'.password != new'.password, Sort(ChangedKeys(old', new')));
  }

  lemma {:induction false} NoDifference(a: seq<string>, b: seq<string>)
    ensures multiset(a) == multiset(b) <==>
            multiset(a) - multiset(b) == multiset{} && multiset(b) - multiset(a) == multiset{}
  {
    if multiset(a) - multiset(b) == multiset{} && multiset(b) - multiset(a) == multiset{} {
      forall x ensures multiset(a)[x] == multiset(b)[x] {
        assert (multiset(a) - multiset(b))[x] == 0 && (multiset(b) - multiset(a))[x] == 0;
      }
    }
  }

  /** A change of route credentials alone is no route change. */
  lemma {:induction false} CredentialsAreNoRouteChange(old': ServerOptions, new': ServerOptions)
    requires SameHosts(old', new')
    ensures Diff(NormalizeRouteHosts(old'), NormalizeRouteHosts(new')) == ([], [])
  {
    SameHostsSameList(old'.routes, new'.routes);
    var s := NormalizeRouteHosts(old');
    DiffIsDifference(s, s);
    assert multiset(s) - multiset(s) == multiset{};
    EmptyIffNone(Diff(s, s).0);
    EmptyIffNone(Diff(s, s).1);
  }

  /** The same hosts are routed to, as often, and every other setting is the same. */
  predicate Unchanged(old': ServerOptions, new': ServerOptions)
  {
    multiset(Hosts(old'.routes)) == multiset(Hosts(new'.routes)) && new'.(routes := old'.routes) == old'
  }

  /** The diff is empty exactly when hosts, password and the other compared settings
      agree and both or neither have TLS. */
  lemma {:induction false} EmptyDiffMeaning(old': ServerOptions, new': ServerOptions)
    ensures IsEmpty(DiffOf(old', new')) <==> Unchanged(old', new'.(tls := old'.tls)) && new'.tls.Some? == old'.tls.Some?
  {
    var d := DiffOf(old', new');
    DiffIsDifference(NormalizeRouteHosts(old'), NormalizeRouteHosts(new'));
    NoDifference(Hosts(old'.routes), Hosts(new'.routes));
    EmptyIffNone(d.added);
    EmptyIffNone(d.removed);
    EmptyIffNone(d.skipped);
    EmptyIffNone(ChangedKeys(old', new'));
  }

  /** So an empty diff means that nothing changed, and the other way round, except
      in one case: both have TLS, it differs, and nothing else does. */
  lemma {:induction false} EmptyDiffIsNoChange(old': ServerOptions, new': ServerOptions)
    ensures (IsEmpty(DiffOf(old', new')) <==> Unchanged(old', new')) <==>
            !(old'.tls.Some? && new'.tls.Some? && old'.tls != new'.tls && Unchanged(old', new'.(tls := old'.tls)))
  {
    EmptyDiffMeaning(old', new');
  }

  /** A new certificate on otherwise equal options goes unseen. */
  lemma {:induction false} NewCertificateIsUnseen(o: ServerOptions, was: Tls, is': Tls)
    requires was.certificate != is'.certificate
    ensures var before, after := o.(tls := Some(was)), o.(tls := Some(is'));
            before != after && IsEmpty(DiffOf(before, after))
  {
    EmptyDiffMeaning(o.(tls := Some(was)), o.(tls := Some(is')));
  }

  lemma {:induction false} EmptyIffNone(s: seq<string>)
    ensures multiset(s) == multiset{} <==> s == []
  {
    assert |multiset(s)| == |s|;
  }
}
