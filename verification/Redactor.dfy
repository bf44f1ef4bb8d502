/**
  The dump redactor (internal/pgmctl/dump/redact.go): a walk over JSON trees that
  masks secrets and, in strict mode, replaces identities by placeholders through a
  correlation table kept across trees. The regular expressions and the hash are
  parameters.
 */
module Redactor {
  import opened Text

  /** A JSON value; the fields of an object in the order the walk meets them. */
  datatype Json = Obj(fields: seq<Field>) | Arr(items: seq<Json>) | Str(s: string) | Other(token: string)

  datatype Field = Field(name: string, value: Json)

  const REDACTED: string := "[REDACTED]"

  /** secret and identity say which keys match, scrub replaces bearer literals in
      text, hash is the hex prefix of the digest. */
  datatype Rules = Rules(strict: bool, secret: string -> bool, identity: string -> bool, scrub: string -> string,
    hash: string -> string)

  // ----- Placeholders

  predicate Contains(s: string, t: string)
  {
    t <= s || (s != "" && Contains(s[1..], t))
  }

  function BucketForKey(key: string): (b: string)
  {
    var k := ToLower(key);
    if Contains(k, "cluster_id") then "cluster"
    else if Contains(k, "node") || Contains(k, "primary") || Contains(k, "leader") || Contains(k, "standby") then "node"
    else if Contains(k, "host") || Contains(k, "addr") || Contains(k, "url") then "host"
    else if Contains(k, "slot") then "slot"
    else "id"
  }

  /** t stands somewhere in s. */
  predicate PartOf(t: string, s: string)
  {
    exists i :: 0 <= i <= |s| && StandsAt(t, s, i)
  }

  predicate StandsAt(t: string, s: string, i: int)
    requires 0 <= i <= |s|
  {
    t <= s[i..]
  }

  lemma {:induction false} ContainsMeaning(s: string, t: string)
    ensures Contains(s, t) <==> PartOf(t, s)
  {
    assert s[0..] == s;
    if t <= s {
      assert StandsAt(t, s, 0);
    } else if s != "" {
      var rest := s[1..];
      ContainsMeaning(rest, t);
      if i :| 0 <= i <= |rest| && StandsAt(t, rest, i) {
        assert rest[i..] == s[i + 1..];
        assert StandsAt(t, s, i + 1);
      }
      if i :| 0 <= i <= |s| && StandsAt(t, s, i) {
        assert i > 0 && rest[i - 1..] == s[i..];
        assert StandsAt(t, rest, i - 1);
      }
    }
  }

  /** The bucket of a key, by what stands in it in any case. */
  lemma {:induction false} BucketMeaning(key: string)
    ensures var k, b := ToLower(key), BucketForKey(key);
            var node := PartOf("node", k) || PartOf("primary", k) || PartOf("leader", k) || PartOf("standby", k);
            var host := PartOf("host", k) || PartOf("addr", k) || PartOf("url", k);
            if PartOf("cluster_id", k) then b == "cluster"
            else if node then b == "node"
            else if host then b == "host"
            else b == if PartOf("slot", k) then "slot" else "id"
  {
    var k := ToLower(key);
    ContainsMeaning(k, "cluster_id");
    ContainsMeaning(k, "node");
    ContainsMeaning(k, "primary");
    ContainsMeaning(k, "leader");
    ContainsMeaning(k, "standby");
    ContainsMeaning(k, "host");
    ContainsMeaning(k, "addr");
    ContainsMeaning(k, "url");
    ContainsMeaning(k, "slot");
  }

  function Placeholder(r: Rules, key: string, original: string): (p: string)
    ensures p != ""
  {
    BucketForKey(key) + "-" + r.hash(original)
  }

  /** The key's strings are replaced by placeholders. */
  predicate Identifies(r: Rules, key: string)
  {
    !r.secret(key) && r.strict && r.identity(key)
  }

  // ----- The table

  ghost predicate MadeFrom(r: Rules, o: string, p: string)
  {
    exists key :: p == Placeholder(r, key, o)
  }

  /** The two maps belong together: a placeholder leads to some original that leads
      back to it, and every original has a placeholder made from its hash. */
  ghost predicate Linked(r: Rules, strictMap: map<string, string>, reverseMap: map<string, string>)
  {
    && (forall o :: o in reverseMap ==> reverseMap[o] in strictMap && MadeFrom(r, o, reverseMap[o]))
    && (forall p :: p in strictMap ==> strictMap[p] in reverseMap && reverseMap[strictMap[p]] == p)
  }

  lemma {:induction false} LinkedInsert(r: Rules, strictMap: map<string, string>, reverseMap: map<string, string>,
    o: string, p: string)
    requires Linked(r, strictMap, reverseMap) && o !in reverseMap && MadeFrom(r, o, p)
    ensures Linked(r, strictMap[p := o], reverseMap[o := p])
  {}

  predicate Extends(before: map<string, string>, after: map<string, string>)
  {
    forall o :: o in before ==> o in after && after[o] == before[o]
  }

  /** No two originals seen share a placeholder. */
  predicate CollisionFree(reverseMap: map<string, string>)
  {
    forall a, b :: a in reverseMap && b in reverseMap && reverseMap[a] == reverseMap[b] ==> a == b
  }

  /** The table recovers every original exactly when no two share a placeholder. */
  lemma {:induction false} TableRecovers(r: Rules, strictMap: map<string, string>, reverseMap: map<string, string>)
    requires Linked(r, strictMap, reverseMap)
    ensures CollisionFree(reverseMap) <==> forall o :: o in reverseMap ==> strictMap[reverseMap[o]] == o
  {
    if CollisionFree(reverseMap) {
      forall o | o in reverseMap ensures strictMap[reverseMap[o]] == o {
        var back := strictMap[reverseMap[o]];
        assert back in reverseMap && reverseMap[back] == reverseMap[o];
      }
    }
  }

  /** Hashes of one length that differ make placeholders that differ. */
  lemma {:induction false} DistinctHashesSuffice(r: Rules, strictMap: map<string, string>,
    reverseMap: map<string, string>)
    requires Linked(r, strictMap, reverseMap)
    requires forall a, b :: a in reverseMap && b in reverseMap && r.hash(a) == r.hash(b) ==> a == b
    requires forall a, b :: a in reverseMap && b in reverseMap ==> |r.hash(a)| == |r.hash(b)|
    ensures CollisionFree(reverseMap)
  {
    forall a, b | a in reverseMap && b in reverseMap && reverseMap[a] == reverseMap[b] ensures a == b {
      var p := reverseMap[a];
      assert MadeFrom(r, a, p) && MadeFrom(r, b, p);
      var ka :| p == Placeholder(r, ka, a);
      var kb :| p == Placeholder(r, kb, b);
      EndsInHash(r, ka, a);
      EndsInHash(r, kb, b);
      assert r.hash(a) == r.hash(b);
    }
  }

  lemma {:induction false} EndsInHash(r: Rules, key: string, o: string)
    ensures var p := Placeholder(r, key, o); |p| >= |r.hash(o)| && p[|p| - |r.hash(o)|..] == r.hash(o)
  {}

  // ----- The walk

  /** What the walk makes of one string when every identity met is in the map. */
  function ImageOf(r: Rules, m: map<string, string>, key: string, s: string): (t: string)
    requires Met(r, m, key, s)
  {
    if s == "" then s
    else if r.secret(key) then REDACTED
    else if Identifies(r, key) then m[s]
    else r.scrub(s)
  }

  predicate Met(r: Rules, m: map<string, string>, key: string, s: string)
  {
    s != "" && Identifies(r, key) ==> s in m
  }

  /** Every identity in the tree is in the map. */
  predicate Covers(r: Rules, m: map<string, string>, v: Json, key: string)
  {
    match v
    case Obj(fields) => forall i :: 0 <= i < |fields| ==> Covers(r, m, fields[i].value, fields[i].name)
    case Arr(items) => forall i :: 0 <= i < |items| ==> Covers(r, m, items[i], key)
    case Str(s) => Met(r, m, key, s)
    case Other(_) => true
  }

  /** The redacted tree: a function of the tree and the map alone, so equal
      identities are replaced by equal placeholders wherever they stand. */
  function Image(r: Rules, m: map<string, string>, v: Json, key: string): (w: Json)
    requires Covers(r, m, v, key)
  {
    match v
    case Obj(fields) =>
      Obj(seq(|fields|, i requires 0 <= i < |fields| => Field(fields[i].name, Image(r, m, fields[i].value, fields[i].name))))
    case Arr(items) => Arr(seq(|items|, i requires 0 <= i < |items| => Image(r, m, items[i], key)))
    case Str(s) => Str(ImageOf(r, m, key, s))
    case Other(_) => v
  }

  lemma {:induction false} ImageIsStable(r: Rules, m: map<string, string>, n: map<string, string>, v: Json, key: string)
    requires Extends(m, n) && Covers(r, m, v, key)
    ensures Covers(r, n, v, key) && Image(r, n, v, key) == Image(r, m, v, key)
    decreases v
  {
    match v
    case Obj(fields) =>
      forall i | 0 <= i < |fields|
        ensures Covers(r, n, fields[i].value, fields[i].name)
        ensures Image(r, n, fields[i].value, fields[i].name) == Image(r, m, fields[i].value, fields[i].name)
      {
        ImageIsStable(r, m, n, fields[i].value, fields[i].name);
      }
    case Arr(items) =>
      forall i | 0 <= i < |items|
        ensures Covers(r, n, items[i], key) && Image(r, n, items[i], key) == Image(r, m, items[i], key)
      {
        ImageIsStable(r, m, n, items[i], key);
      }
    case Str(_) =>
    case Other(_) =>
  }

  // ----- Which identities a walk meets

  /** An identity and the key it was found under. */
  datatype Meeting = Meeting(key: string, original: string)

  function MeetsString(r: Rules, key: string, s: string): (xs: seq<Meeting>)
  {
    if s != "" && Identifies(r, key) then [Meeting(key, s)] else []
  }

  /** The identities in a tree, in the order of the walk. */
  function Meets(r: Rules, v: Json, key: string): (xs: seq<Meeting>)
    decreases v
  {
    match v
    case Obj(fields) => MeetsFields(r, fields)
    case Arr(items) => MeetsItems(r, items, key)
    case Str(s) => MeetsString(r, key, s)
    case Other(_) => []
  }

  function MeetsFields(r: Rules, fields: seq<Field>): (xs: seq<Meeting>)
    decreases fields
  {
    if fields == [] then []
    else MeetsFields(r, fields[..|fields| - 1]) + Meets(r, fields[|fields| - 1].value, fields[|fields| - 1].name)
  }

  function MeetsItems(r: Rules, items: seq<Json>, key: string): (xs: seq<Meeting>)
    decreases items
  {
    if items == [] then [] else MeetsItems(r, items[..|items| - 1], key) + Meets(r, items[|items| - 1], key)
  }

  /** The placeholders after one meeting: an original keeps the first it was given. */
  function Meet(r: Rules, m: map<string, string>, x: Meeting): (n: map<string, string>)
  {
    if x.original in m then m else m[x.original := Placeholder(r, x.key, x.original)]
  }

  function MeetAll(r: Rules, m: map<string, string>, xs: seq<Meeting>): (n: map<string, string>)
  {
    if xs == [] then m else Meet(r, MeetAll(r, m, xs[..|xs| - 1]), xs[|xs| - 1])
  }

  lemma {:induction false} MeetAllAppend(r: Rules, m: map<string, string>, xs: seq<Meeting>, ys: seq<Meeting>)
    ensures MeetAll(r, m, xs + ys) == MeetAll(r, MeetAll(r, m, xs), ys)
  {
    if ys == [] {
      assert xs + ys == xs;
    } else {
      MeetAllAppend(r, m, xs, ys[..|ys| - 1]);
      assert (xs + ys)[..|xs + ys| - 1] == xs + ys[..|ys| - 1];
    }
  }

  lemma {:induction false} MeetNone(r: Rules, m: map<string, string>)
    ensures MeetAll(r, m, []) == m
  {}

  lemma {:induction false} MeetOne(r: Rules, m: map<string, string>, x: Meeting)
    ensures MeetAll(r, m, [x]) == Meet(r, m, x)
  {
    assert [x][..0] == [];
  }

  lemma {:induction false} MeetsFieldsMore(r: Rules, fields: seq<Field>, k: nat, m: map<string, string>)
    requires k < |fields|
    ensures MeetAll(r, m, MeetsFields(r, fields[..k + 1]))
            == MeetAll(r, MeetAll(r, m, MeetsFields(r, fields[..k])), Meets(r, fields[k].value, fields[k].name))
  {
    assert fields[..k + 1][..k] == fields[..k];
    MeetAllAppend(r, m, MeetsFields(r, fields[..k]), Meets(r, fields[k].value, fields[k].name));
  }

  lemma {:induction false} MeetsItemsMore(r: Rules, items: seq<Json>, key: string, k: nat, m: map<string, string>)
    requires k < |items|
    ensures MeetAll(r, m, MeetsItems(r, items[..k + 1], key))
            == MeetAll(r, MeetAll(r, m, MeetsItems(r, items[..k], key)), Meets(r, items[k], key))
  {
    assert items[..k + 1][..k] == items[..k];
    MeetAllAppend(r, m, MeetsItems(r, items[..k], key), Meets(r, items[k], key));
  }

  /** In normal mode a walk meets nobody, and the table stays as it is. */
  lemma {:induction false} NormalMeetsNobody(r: Rules, v: Json, key: string)
    requires !r.strict
    ensures Meets(r, v, key) == []
    decreases v
  {
    match v
    case Obj(fields) => NormalFields(r, fields);
    case Arr(items) => NormalItems(r, items, key);
    case Str(_) =>
    case Other(_) =>
  }

  lemma {:induction false} NormalFields(r: Rules, fields: seq<Field>)
    requires !r.strict
    ensures MeetsFields(r, fields) == []
    decreases fields
  {
    if fields != [] {
      NormalFields(r, fields[..|fields| - 1]);
      NormalMeetsNobody(r, fields[|fields| - 1].value, fields[|fields| - 1].name);
    }
  }

  lemma {:induction false} NormalItems(r: Rules, items: seq<Json>, key: string)
    requires !r.strict
    ensures MeetsItems(r, items, key) == []
    decreases items
  {
    if items != [] {
      NormalItems(r, items[..|items| - 1], key);
      NormalMeetsNobody(r, items[|items| - 1], key);
    }
  }

  class Walker {
    const rules: Rules
    var strictMap: map<string, string>
    var reverseMap: map<string, string>

    constructor (rules: Rules)
      ensures this.rules == rules && Valid() && reverseMap == map[]
    {
      this.rules := rules;
      strictMap, reverseMap := map[], map[];
    }

    ghost predicate Valid()
      reads this
    {
      Linked(rules, strictMap, reverseMap)
    }

    method PlaceholderFor(key: string, original: string) returns (p: string)
      requires Valid()
      modifies this
      ensures Valid() && Extends(old(reverseMap), reverseMap)
      ensures reverseMap.Keys == old(reverseMap.Keys) + {original} && p == reverseMap[original]
      ensures reverseMap == Meet(rules, old(reverseMap), Meeting(key, original))
    {
      if original in reverseMap {
        return reverseMap[original];
      }
      p := Placeholder(rules, key, original);
      assert MadeFrom(rules, original, p);
      LinkedInsert(rules, strictMap, reverseMap, original, p);
      reverseMap := reverseMap[original := p];
      strictMap := strictMap[p := original];
    }

    method ScrubString(key: string, value: string) returns (t: string)
      requires Valid()
      modifies this
      ensures Valid() && Extends(old(reverseMap), reverseMap)
      ensures reverseMap == MeetAll(rules, old(reverseMap), MeetsString(rules, key, value))
      ensures Met(rules, reverseMap, key, value) && t == ImageOf(rules, reverseMap, key, value)
    {
      MeetNone(rules, reverseMap);
      MeetOne(rules, reverseMap, Meeting(key, value));
      if value == "" {
        return value;
      }
      if rules.secret(key) {
        return REDACTED;
      }
      if rules.strict && rules.identity(key) {
        t := PlaceholderFor(key, value);
        return;
      }
      t := rules.scrub(value);
    }

    method Walk(v: Json, key: string) returns (w: Json)
      requires Valid()
      modifies this
      ensures Valid() && Extends(old(reverseMap), reverseMap)
      ensures reverseMap == MeetAll(rules, old(reverseMap), Meets(rules, v, key))
      ensures Walked(rules, reverseMap, v, key, w)
      decreases v, 1
    {
      MeetNone(rules, reverseMap);
      match v {
        case Obj(fields) =>
          var out := WalkFields(v);
          w := Obj(out);
          assert out == Image(rules, reverseMap, v, key).fields;
        case Arr(items) =>
          var out := WalkItems(v, key);
          w := Arr(out);
          assert out == Image(rules, reverseMap, v, key).items;
        case Str(s) =>
          var t := ScrubString(key, s);
          w := Str(t);
        case Other(_) =>
          w := v;
      }
    }

    method WalkFields(v: Json) returns (out: seq<Field>)
      requires Valid() && v.Obj?
      modifies this
      ensures Valid() && Extends(old(reverseMap), reverseMap)
      ensures reverseMap == MeetAll(rules, old(reverseMap), MeetsFields(rules, v.fields))
      ensures |out| == |v.fields| && FieldsWalked(rules, reverseMap, v.fields, out)
      decreases v, 0
    {
      out := [];
      for k := 0 to |v.fields|
        invariant Valid() && Extends(old(reverseMap), reverseMap)
        invariant reverseMap == MeetAll(rules, old(reverseMap), MeetsFields(rules, v.fields[..k]))
        invariant |out| == k && FieldsWalked(rules, reverseMap, v.fields[..k], out)
      {
        ghost var was := reverseMap;
        var x := Walk(v.fields[k].value, v.fields[k].name);
        FieldsStable(rules, was, reverseMap, v.fields[..k], out);
        FieldsWalkedMore(rules, reverseMap, v.fields, k, out, x);
        MeetsFieldsMore(rules, v.fields, k, old(reverseMap));
        out := out + [Field(v.fields[k].name, x)];
      }
      assert v.fields[..|v.fields|] == v.fields;
    }

    method WalkItems(v: Json, key: string) returns (out: seq<Json>)
      requires Valid() && v.Arr?
      modifies this
      ensures Valid() && Extends(old(reverseMap), reverseMap)
      ensures reverseMap == MeetAll(rules, old(reverseMap), MeetsItems(rules, v.items, key))
      ensures |out| == |v.items| && ItemsWalked(rules, reverseMap, v.items, key, out)
      decreases v, 0
    {
      out := [];
      for k := 0 to |v.items|
        invariant Valid() && Extends(old(reverseMap), reverseMap)
        invariant reverseMap == MeetAll(rules, old(reverseMap), MeetsItems(rules, v.items[..k], key))
        invariant |out| == k && ItemsWalked(rules, reverseMap, v.items[..k], key, out)
      {
        ghost var was := reverseMap;
        var x := Walk(v.items[k], key);
        ItemsStable(rules, was, reverseMap, v.items[..k], key, out);
        ItemsWalkedMore(rules, reverseMap, v.items, key, k, out, x);
        MeetsItemsMore(rules, v.items, key, k, old(reverseMap));
        out := out + [x];
      }
      assert v.items[..|v.items|] == v.items;
    }

    /** Several trees through one redactor: with the table as it is at the end. */
    method ApplyAll(vs: seq<Json>) returns (ws: seq<Json>)
      requires Valid()
      modifies this
      ensures Valid() && Extends(old(reverseMap), reverseMap)
      ensures |ws| == |vs| && ItemsWalked(rules, reverseMap, vs, "", ws)
      ensures reverseMap == MeetAll(rules, old(reverseMap), MeetsItems(rules, vs, ""))
      ensures forall i :: 0 <= i < |vs| ==> IsRedacted(rules, vs[i], ws[i], "")
    {
      ws := [];
      for k := 0 to |vs|
        invariant Valid() && Extends(old(reverseMap), reverseMap)
        invariant |ws| == k && ItemsWalked(rules, reverseMap, vs[..k], "", ws)
        invariant reverseMap == MeetAll(rules, old(reverseMap), MeetsItems(rules, vs[..k], ""))
      {
        ghost var was := reverseMap;
        var w := Walk(vs[k], "");
        ItemsStable(rules, was, reverseMap, vs[..k], "", ws);
        ItemsWalkedMore(rules, reverseMap, vs, "", k, ws, w);
        MeetsItemsMore(rules, vs, "", k, old(reverseMap));
        ws := ws + [w];
      }
      assert vs[..|vs|] == vs;
      forall i | 0 <= i < |vs| ensures IsRedacted(rules, vs[i], ws[i], "") {
        ImageIsRedacted(rules, strictMap, reverseMap, vs[i], "");
      }
    }
  }

  /** The tree w is what the walk makes of v. */
  predicate Walked(r: Rules, m: map<string, string>, v: Json, key: string, w: Json)
  {
    Covers(r, m, v, key) && w == Image(r, m, v, key)
  }

  predicate FieldsWalked(r: Rules, m: map<string, string>, fields: seq<Field>, out: seq<Field>)
    requires |out| == |fields|
  {
    forall i :: 0 <= i < |fields| ==> out[i].name == fields[i].name && Walked(r, m, fields[i].value, fields[i].name, out[i].value)
  }

  predicate ItemsWalked(r: Rules, m: map<string, string>, items: seq<Json>, key: string, out: seq<Json>)
    requires |out| == |items|
  {
    forall i :: 0 <= i < |items| ==> Walked(r, m, items[i], key, out[i])
  }

  lemma {:induction false} FieldsWalkedMore(r: Rules, m: map<string, string>, fields: seq<Field>, k: nat,
    out: seq<Field>, x: Json)
    requires |out| == k < |fields| && FieldsWalked(r, m, fields[..k], out)
             && Walked(r, m, fields[k].value, fields[k].name, x)
    ensures FieldsWalked(r, m, fields[..k + 1], out + [Field(fields[k].name, x)])
  {
    assert forall i :: 0 <= i < k ==> fields[..k + 1][i] == fields[..k][i];
  }

  lemma {:induction false} ItemsWalkedMore(r: Rules, m: map<string, string>, items: seq<Json>, key: string, k: nat,
    out: seq<Json>, x: Json)
    requires |out| == k < |items| && ItemsWalked(r, m, items[..k], key, out) && Walked(r, m, items[k], key, x)
    ensures ItemsWalked(r, m, items[..k + 1], key, out + [x])
  {
    assert forall i :: 0 <= i < k ==> items[..k + 1][i] == items[..k][i];
  }

  lemma {:induction false} FieldsStable(r: Rules, m: map<string, string>, n: map<string, string>, fields: seq<Field>,
    out: seq<Field>)
    requires |out| == |fields| && FieldsWalked(r, m, fields, out) && Extends(m, n)
    ensures FieldsWalked(r, n, fields, out)
  {
    forall i | 0 <= i < |fields| ensures Walked(r, n, fields[i].value, fields[i].name, out[i].value) {
      ImageIsStable(r, m, n, fields[i].value, fields[i].name);
    }
  }

  lemma {:induction false} ItemsStable(r: Rules, m: map<string, string>, n: map<string, string>, items: seq<Json>,
    key: string, out: seq<Json>)
    requires |out| == |items| && ItemsWalked(r, m, items, key, out) && Extends(m, n)
    ensures ItemsWalked(r, n, items, key, out)
  {
    forall i | 0 <= i < |items| ensures Walked(r, n, items[i], key, out[i]) {
      ImageIsStable(r, m, n, items[i], key);
    }
  }

  // ----- What is gone

  /** w is v redacted: a secret is gone, in strict mode an identity has become a
      placeholder made of a bucket and its hash, other text is scrubbed, and what is no
      text is as it was. */
  ghost predicate IsRedacted(r: Rules, v: Json, w: Json, key: string)
    decreases v
  {
    match v
    case Obj(fields) =>
      && w.Obj? && |w.fields| == |fields|
      && forall i :: 0 <= i < |fields| ==>
           w.fields[i].name == fields[i].name && IsRedacted(r, fields[i].value, w.fields[i].value, fields[i].name)
    case Arr(items) => w.Arr? && |w.items| == |items| && forall i :: 0 <= i < |items| ==> IsRedacted(r, items[i], w.items[i], key)
    case Str(s) => w.Str? && IsRedactedText(r, key, s, w.s)
    case Other(_) => w == v
  }

  ghost predicate IsRedactedText(r: Rules, key: string, s: string, t: string)
  {
    if s == "" then t == ""
    else if r.secret(key) then t == "[REDACTED]"
    else if r.strict && r.identity(key) then exists k :: t == BucketForKey(k) + "-" + r.hash(s)
    else t == r.scrub(s)
  }

  lemma {:induction false} TextIsRedacted(r: Rules, table: map<string, string>, m: map<string, string>, key: string, s: string)
    requires Linked(r, table, m) && Met(r, m, key, s)
    ensures IsRedactedText(r, key, s, ImageOf(r, m, key, s))
  {
    if s != "" && Identifies(r, key) {
      assert MadeFrom(r, s, m[s]);
      var k :| m[s] == Placeholder(r, k, s);
      assert m[s] == BucketForKey(k) + "-" + r.hash(s);
    }
  }

  lemma {:induction false} ImageIsRedacted(r: Rules, table: map<string, string>, m: map<string, string>, v: Json, key: string)
    requires Linked(r, table, m) && Covers(r, m, v, key)
    ensures IsRedacted(r, v, Image(r, m, v, key), key)
    decreases v
  {
    match v
    case Obj(fields) =>
      forall i | 0 <= i < |fields| ensures IsRedacted(r, fields[i].value, Image(r, m, fields[i].value, fields[i].name), fields[i].name) {
        ImageIsRedacted(r, table, m, fields[i].value, fields[i].name);
      }
    case Arr(items) =>
      forall i | 0 <= i < |items| ensures IsRedacted(r, items[i], Image(r, m, items[i], key), key) {
        ImageIsRedacted(r, table, m, items[i], key);
      }
    case Str(s) => TextIsRedacted(r, table, m, key, s);
    case Other(_) =>
  }

  // ----- Reading a dump with the table

  /** The tree with secrets and bearer text masked and everything else as it was. */
  function Masked(r: Rules, v: Json, key: string): (w: Json)
  {
    match v
    case Obj(fields) =>
      Obj(seq(|fields|, i requires 0 <= i < |fields| => Field(fields[i].name, Masked(r, fields[i].value, fields[i].name))))
    case Arr(items) => Arr(seq(|items|, i requires 0 <= i < |items| => Masked(r, items[i], key)))
    case Str(s) =>
      Str(if s == "" || Identifies(r, key) then s else if r.secret(key) then REDACTED else r.scrub(s))
    case Other(_) => v
  }

  /** Looking up what stands under identity keys. */
  function Expand(r: Rules, table: map<string, string>, w: Json, key: string): (v: Json)
  {
    match w
    case Obj(fields) =>
      Obj(seq(|fields|, i requires 0 <= i < |fields| => Field(fields[i].name, Expand(r, table, fields[i].value, fields[i].name))))
    case Arr(items) => Arr(seq(|items|, i requires 0 <= i < |items| => Expand(r, table, items[i], key)))
    case Str(p) => Str(if Identifies(r, key) && p in table then table[p] else p)
    case Other(_) => w
  }

  /** The table leads each of these identities back to itself. */
  predicate Recovers(table: map<string, string>, m: map<string, string>, xs: seq<Meeting>)
  {
    forall i :: 0 <= i < |xs| ==> xs[i].original in m && m[xs[i].original] in table && table[m[xs[i].original]] == xs[i].original
  }

  lemma {:induction false} RecoversAppend(table: map<string, string>, m: map<string, string>, xs: seq<Meeting>,
    ys: seq<Meeting>)
    ensures Recovers(table, m, xs + ys) <==> Recovers(table, m, xs) && Recovers(table, m, ys)
  {
    var all := xs + ys;
    assert forall i :: 0 <= i < |xs| ==> all[i] == xs[i];
    assert forall i :: 0 <= i < |ys| ==> all[|xs| + i] == ys[i];
  }

  lemma {:induction false} RecoversFields(r: Rules, table: map<string, string>, m: map<string, string>,
    fields: seq<Field>)
    ensures Recovers(table, m, MeetsFields(r, fields)) <==>
            forall i :: 0 <= i < |fields| ==> Recovers(table, m, Meets(r, fields[i].value, fields[i].name))
  {
    if fields != [] {
      var init, last := fields[..|fields| - 1], fields[|fields| - 1];
      RecoversFields(r, table, m, init);
      RecoversAppend(table, m, MeetsFields(r, init), Meets(r, last.value, last.name));
      assert forall i :: 0 <= i < |init| ==> init[i] == fields[i];
    }
  }

  lemma {:induction false} RecoversItems(r: Rules, table: map<string, string>, m: map<string, string>,
    items: seq<Json>, key: string)
    ensures Recovers(table, m, MeetsItems(r, items, key)) <==>
            forall i :: 0 <= i < |items| ==> Recovers(table, m, Meets(r, items[i], key))
  {
    if items != [] {
      var init, last := items[..|items| - 1], items[|items| - 1];
      RecoversItems(r, table, m, init, key);
      RecoversAppend(table, m, MeetsItems(r, init, key), Meets(r, last, key));
      assert forall i :: 0 <= i < |init| ==> init[i] == items[i];
    }
  }

  /** The redacted tree reads back as the original, but for what is masked. */
  predicate Reads(r: Rules, table: map<string, string>, m: map<string, string>, v: Json, key: string)
    requires Covers(r, m, v, key)
  {
    Expand(r, table, Image(r, m, v, key), key) == Masked(r, v, key)
  }

  lemma {:induction false} ReadsObj(r: Rules, table: map<string, string>, m: map<string, string>, fields: seq<Field>,
    key: string)
    requires Covers(r, m, Obj(fields), key)
    ensures Reads(r, table, m, Obj(fields), key) <==>
            forall i :: 0 <= i < |fields| ==> Reads(r, table, m, fields[i].value, fields[i].name)
  {
    var v := Obj(fields);
    var w := Image(r, m, v, key);
    var e, o := Expand(r, table, w, key), Masked(r, v, key);
    assert forall i :: 0 <= i < |fields| ==> w.fields[i] == Field(fields[i].name, Image(r, m, fields[i].value, fields[i].name));
    assert forall i :: 0 <= i < |fields| ==> e.fields[i] == Field(fields[i].name, Expand(r, table, w.fields[i].value, fields[i].name));
    assert forall i :: 0 <= i < |fields| ==> o.fields[i] == Field(fields[i].name, Masked(r, fields[i].value, fields[i].name));
    SameFields(e.fields, o.fields);
  }

  lemma {:induction false} ReadsArr(r: Rules, table: map<string, string>, m: map<string, string>, items: seq<Json>,
    key: string)
    requires Covers(r, m, Arr(items), key)
    ensures Reads(r, table, m, Arr(items), key) <==> forall i :: 0 <= i < |items| ==> Reads(r, table, m, items[i], key)
  {
    var v := Arr(items);
    var w := Image(r, m, v, key);
    var e, o := Expand(r, table, w, key), Masked(r, v, key);
    assert forall i :: 0 <= i < |items| ==> w.items[i] == Image(r, m, items[i], key);
    assert forall i :: 0 <= i < |items| ==> e.items[i] == Expand(r, table, w.items[i], key);
    assert forall i :: 0 <= i < |items| ==> o.items[i] == Masked(r, items[i], key);
    SameItems(e.items, o.items);
  }

  lemma {:induction false} ReadsStr(r: Rules, table: map<string, string>, m: map<string, string>, s: string,
    key: string)
    requires Linked(r, table, m) && Covers(r, m, Str(s), key)
    ensures Reads(r, table, m, Str(s), key) <==> Recovers(table, m, Meets(r, Str(s), key))
  {
    NoEmptyPlaceholder(r, table, m);
    if s != "" && Identifies(r, key) {
      var xs := [Meeting(key, s)];
      assert Meets(r, Str(s), key) == xs && xs[0].original == s;
      assert Recovers(table, m, xs) <==> table[m[s]] == s;
    } else {
      assert Meets(r, Str(s), key) == [];
    }
  }

  /** Expanding a redacted tree gives the original, but for what is masked, exactly
      when the table recovers the identities in it. */
  lemma {:induction false} ExpandRecovers(r: Rules, table: map<string, string>, m: map<string, string>, v: Json,
    key: string)
    requires Linked(r, table, m) && Covers(r, m, v, key)
    ensures Reads(r, table, m, v, key) <==> Recovers(table, m, Meets(r, v, key))
    decreases v
  {
    match v
    case Obj(fields) =>
      ReadsObj(r, table, m, fields, key);
      RecoversFields(r, table, m, fields);
      forall i | 0 <= i < |fields|
        ensures Reads(r, table, m, fields[i].value, fields[i].name)
                <==> Recovers(table, m, Meets(r, fields[i].value, fields[i].name))
      {
        ExpandRecovers(r, table, m, fields[i].value, fields[i].name);
      }
    case Arr(items) =>
      ReadsArr(r, table, m, items, key);
      RecoversItems(r, table, m, items, key);
      forall i | 0 <= i < |items| ensures Reads(r, table, m, items[i], key)
        <==> Recovers(table, m, Meets(r, items[i], key)) {
        ExpandRecovers(r, table, m, items[i], key);
      }
    case Str(s) =>
      ReadsStr(r, table, m, s, key);
    case Other(_) =>
  }

  lemma {:induction false} SameFields(a: seq<Field>, b: seq<Field>)
    requires |a| == |b| && forall i :: 0 <= i < |a| ==> a[i].name == b[i].name
    ensures a == b <==> forall i :: 0 <= i < |a| ==> a[i].value == b[i].value
  {}

  lemma {:induction false} SameItems(a: seq<Json>, b: seq<Json>)
    requires |a| == |b|
    ensures a == b <==> forall i :: 0 <= i < |a| ==> a[i] == b[i]
  {}

  lemma {:induction false} NoEmptyPlaceholder(r: Rules, strictMap: map<string, string>, m: map<string, string>)
    requires Linked(r, strictMap, m)
    ensures "" !in strictMap
  {}

  // ----- What the table can recover

  /** The first meeting with an original, which decides its placeholder. */
  predicate IsFirst(xs: seq<Meeting>, i: nat)
    requires i < |xs|
  {
    forall j :: 0 <= j < i ==> xs[j].original != xs[i].original
  }

  lemma {:induction false} NamedAtFirst(r: Rules, xs: seq<Meeting>, i: nat)
    requires i < |xs| && IsFirst(xs, i)
    ensures IsNamed(r, MeetAll(r, map[], xs), xs[i])
  {
    var n := |xs| - 1;
    var init := xs[..n];
    assert forall j :: 0 <= j < n ==> init[j] == xs[j];
    if i < n {
      NamedAtFirst(r, init, i);
      KeepsName(r, MeetAll(r, map[], init), xs[i], xs[n]);
    } else {
      NotMetIsNotNamed(r, init, xs[n].original);
      GetsName(r, MeetAll(r, map[], init), xs[n]);
    }
  }

  /** The original has the placeholder this meeting gives it. */
  predicate IsNamed(r: Rules, m: map<string, string>, x: Meeting)
  {
    x.original in m && m[x.original] == Placeholder(r, x.key, x.original)
  }

  lemma {:induction false} KeepsName(r: Rules, m: map<string, string>, x: Meeting, y: Meeting)
    requires IsNamed(r, m, x)
    ensures IsNamed(r, Meet(r, m, y), x)
  {}

  lemma {:induction false} GetsName(r: Rules, m: map<string, string>, x: Meeting)
    requires x.original !in m
    ensures IsNamed(r, Meet(r, m, x), x)
  {}

  lemma {:induction false} NotMetIsNotNamed(r: Rules, xs: seq<Meeting>, o: string)
    requires forall j :: 0 <= j < |xs| ==> xs[j].original != o
    ensures o !in MeetAll(r, map[], xs)
  {
    if xs != [] {
      NotMetIsNotNamed(r, xs[..|xs| - 1], o);
    }
  }

  lemma {:induction false} MetSomewhere(r: Rules, xs: seq<Meeting>, o: string) returns (i: nat)
    requires o in MeetAll(r, map[], xs)
    ensures i < |xs| && IsFirst(xs, i) && xs[i].original == o
  {
    var n := |xs| - 1;
    var init := xs[..n];
    if o in MeetAll(r, map[], init) {
      i := MetSomewhere(r, init, o);
      assert forall j :: 0 <= j <= i ==> init[j] == xs[j];
    } else {
      i := n;
      forall j | 0 <= j < n ensures xs[j].original != o {
        MetIsNamed(r, init, j);
        assert init[j] == xs[j];
      }
    }
  }

  lemma {:induction false} MetIsNamed(r: Rules, xs: seq<Meeting>, i: nat)
    requires i < |xs|
    ensures xs[i].original in MeetAll(r, map[], xs)
  {
    var n := |xs| - 1;
    if i < n {
      assert xs[..n][i] == xs[i];
      MetIsNamed(r, xs[..n], i);
    }
  }

  /** No two originals met agree both in hash and in the bucket of the key each was
      first met under. */
  predicate Unambiguous(r: Rules, xs: seq<Meeting>)
  {
    forall i, j :: 0 <= i < |xs| && 0 <= j < |xs| && IsFirst(xs, i) && IsFirst(xs, j)
                   && BucketForKey(xs[i].key) == BucketForKey(xs[j].key)
                     && r.hash(xs[i].original) == r.hash(xs[j].original)
                   ==> i == j
  }

  lemma {:induction false} BucketHasNoDash(key: string)
    ensures '-' !in BucketForKey(key)
  {}

  lemma {:induction false} DashSplits(a: string, x: string, b: string, y: string)
    requires '-' !in a && '-' !in b && a + "-" + x == b + "-" + y
    ensures a == b && x == y
  {
    var s := a + "-" + x;
    assert s[0] == (if a == "" then '-' else a[0]) && s[0] == if b == "" then '-' else b[0];
    assert (a != "" ==> a[0] in a) && (b != "" ==> b[0] in b);
    if a == "" {
      assert b == "" && x == s[1..] && y == s[1..];
    } else {
      assert s[1..] == a[1..] + "-" + x && s[1..] == b[1..] + "-" + y;
      DashSplits(a[1..], x, b[1..], y);
    }
  }

  lemma {:induction false} SamePlaceholder(r: Rules, k: string, a: string, l: string, b: string)
    ensures Placeholder(r, k, a) == Placeholder(r, l, b)
            <==> BucketForKey(k) == BucketForKey(l) && r.hash(a) == r.hash(b)
  {
    BucketHasNoDash(k);
    BucketHasNoDash(l);
    if Placeholder(r, k, a) == Placeholder(r, l, b) {
      DashSplits(BucketForKey(k), r.hash(a), BucketForKey(l), r.hash(b));
    }
  }

  lemma {:induction false} CollisionFreeMeaning(r: Rules, xs: seq<Meeting>)
    ensures CollisionFree(MeetAll(r, map[], xs)) <==> Unambiguous(r, xs)
  {
    var m := MeetAll(r, map[], xs);
    if Unambiguous(r, xs) {
      forall a, b | a in m && b in m && m[a] == m[b] ensures a == b {
        var i := MetSomewhere(r, xs, a);
        var j := MetSomewhere(r, xs, b);
        NamedAtFirst(r, xs, i);
        NamedAtFirst(r, xs, j);
        SamePlaceholder(r, xs[i].key, a, xs[j].key, b);
      }
    }
    if CollisionFree(m) {
      forall i, j | 0 <= i < |xs| && 0 <= j < |xs| && IsFirst(xs, i) && IsFirst(xs, j)
                    && BucketForKey(xs[i].key) == BucketForKey(xs[j].key)
                      && r.hash(xs[i].original) == r.hash(xs[j].original)
        ensures i == j
      {
        NamedAtFirst(r, xs, i);
        NamedAtFirst(r, xs, j);
        SamePlaceholder(r, xs[i].key, xs[i].original, xs[j].key, xs[j].original);
      }
    }
  }

  /** Same kinds of nodes, same field names, same lengths, same other values. */
  predicate SameShape(v: Json, w: Json)
  {
    match v
    case Obj(fields) =>
      && w.Obj? && |w.fields| == |fields|
      && forall i :: 0 <= i < |fields| ==> w.fields[i].name == fields[i].name && SameShape(fields[i].value, w.fields[i].value)
    case Arr(items) => w.Arr? && |w.items| == |items|
      && forall i :: 0 <= i < |items| ==> SameShape(items[i], w.items[i])
    case Str(_) => w.Str?
    case Other(_) => w == v
  }

  lemma {:induction false} ShapeIsKept(r: Rules, m: map<string, string>, v: Json, key: string)
    requires Covers(r, m, v, key)
    ensures SameShape(v, Image(r, m, v, key))
    decreases v
  {
    match v
    case Obj(fields) =>
      forall i | 0 <= i < |fields| ensures SameShape(fields[i].value, Image(r, m, fields[i].value, fields[i].name)) {
        ShapeIsKept(r, m, fields[i].value, fields[i].name);
      }
    case Arr(items) =>
      forall i | 0 <= i < |items| ensures SameShape(items[i], Image(r, m, items[i], key)) {
        ShapeIsKept(r, m, items[i], key);
      }
    case Str(_) =>
    case Other(_) =>
  }

  lemma {:induction false} RecoversAll(r: Rules, table: map<string, string>, xs: seq<Meeting>)
    requires Linked(r, table, MeetAll(r, map[], xs))
    ensures Recovers(table, MeetAll(r, map[], xs), xs) <==> Unambiguous(r, xs)
  {
    var m := MeetAll(r, map[], xs);
    TableRecovers(r, table, m);
    CollisionFreeMeaning(r, xs);
    forall i | 0 <= i < |xs| ensures xs[i].original in m {
      MetIsNamed(r, xs, i);
    }
    if Recovers(table, m, xs) {
      forall o | o in m ensures table[m[o]] == o {
        var i := MetSomewhere(r, xs, o);
      }
    }
  }

  /** Any sequence of trees through a new redactor: every output keeps its tree's
      shape, and expanding all of them with the final table gives the trees back,
      but for what is masked, if and only if no two identities in them agree both
      in hash and in the bucket of the key each was first met under. */
  lemma {:induction false} DumpIsReadable(r: Rules, table: map<string, string>, vs: seq<Json>, ws: seq<Json>)
    requires var m := MeetAll(r, map[], MeetsItems(r, vs, ""));
             Linked(r, table, m) && |ws| == |vs| && ItemsWalked(r, m, vs, "", ws)
    ensures forall i :: 0 <= i < |vs| ==> SameShape(vs[i], ws[i])
    ensures (forall i :: 0 <= i < |vs| ==> Expand(r, table, ws[i], "") == Masked(r, vs[i], ""))
            <==> Unambiguous(r, MeetsItems(r, vs, ""))
  {
    var m := MeetAll(r, map[], MeetsItems(r, vs, ""));
    forall i | 0 <= i < |vs|
      ensures SameShape(vs[i], ws[i])
      ensures Expand(r, table, ws[i], "") == Masked(r, vs[i], "") <==> Recovers(table, m, Meets(r, vs[i], ""))
    {
      assert Walked(r, m, vs[i], "", ws[i]);
      ShapeIsKept(r, m, vs[i], "");
      ExpandRecovers(r, table, m, vs[i], "");
    }
    RecoversItems(r, table, m, vs, "");
    RecoversAll(r, table, MeetsItems(r, vs, ""));
  }

  lemma {:induction false} MeetsOneField(r: Rules, f: Field)
    ensures MeetsFields(r, [f]) == Meets(r, f.value, f.name)
  {
    assert [f][..0] == [];
  }

  lemma {:induction false} MeetsOneItem(r: Rules, v: Json, key: string)
    ensures MeetsItems(r, [v], key) == Meets(r, v, key)
  {
    assert [v][..0] == [];
  }

  lemma {:induction false} MeetsTwoItems(r: Rules, v: Json, w: Json, key: string)
    ensures MeetsItems(r, [v, w], key) == Meets(r, v, key) + Meets(r, w, key)
  {
    assert [v, w][..1] == [v];
    MeetsOneItem(r, v, key);
  }

  lemma {:induction false} MeetsPair(r: Rules, a: string, b: string, key: string)
    requires Identifies(r, key) && a != "" && b != ""
    ensures Meets(r, Arr([Str(a), Str(b)]), key) == [Meeting(key, a), Meeting(key, b)]
  {
    MeetsTwoItems(r, Str(a), Str(b), key);
    assert Meets(r, Str(a), key) == MeetsString(r, key, a) && Meets(r, Str(b), key) == MeetsString(r, key, b);
  }

  lemma {:induction false} MeetsObject(r: Rules, fields: seq<Field>)
    ensures MeetsItems(r, [Obj(fields)], "") == MeetsFields(r, fields)
  {
    MeetsOneItem(r, Obj(fields), "");
  }

  lemma {:induction false} MeetsTwoFields(r: Rules, f: Field, g: Field)
    ensures MeetsFields(r, [f, g]) == Meets(r, f.value, f.name) + Meets(r, g.value, g.name)
  {
    assert [f, g][..1] == [f];
    MeetsOneField(r, f);
  }

  /** Two different identities with one hash in the list under one key: the dump does
      not read back. */
  lemma {:induction false} CollisionLosesOne(r: Rules, key: string, a: string, b: string, v: Json)
    requires Identifies(r, key) && a != "" && b != "" && a != b && r.hash(a) == r.hash(b)
    requires v == Obj([Field(key, Arr([Str(a), Str(b)]))])
    ensures !Unambiguous(r, MeetsItems(r, [v], ""))
  {
    var xs := [Meeting(key, a), Meeting(key, b)];
    MeetsObject(r, v.fields);
    MeetsOneField(r, v.fields[0]);
    MeetsPair(r, a, b, key);
    assert IsFirst(xs, 0) && IsFirst(xs, 1);
  }

  lemma {:induction false} CollidingDumpIsUnreadable(r: Rules, table: map<string, string>, key: string, a: string,
    b: string, v: Json, w: Json)
    requires Identifies(r, key) && a != "" && b != "" && a != b && r.hash(a) == r.hash(b)
    requires v == Obj([Field(key, Arr([Str(a), Str(b)]))])
    requires var m := MeetAll(r, map[], MeetsItems(r, [v], "")); Linked(r, table, m) && Walked(r, m, v, "", w)
    ensures Expand(r, table, w, "") != Masked(r, v, "")
  {
    CollisionLosesOne(r, key, a, b, v);
    DumpIsReadable(r, table, [v], [w]);
  }

  // ----- Whatever the order of the fields

  /** Every field of an object in the one tree has its like in the other, in some order. */
  ghost predicate Within(v: Json, w: Json)
    decreases v
  {
    match v
    case Obj(fields) => w.Obj? && forall i :: 0 <= i < |fields| ==> exists j :: Like(fields[i], w.fields, j)
    case Arr(items) => w.Arr? && |w.items| == |items| && forall i :: 0 <= i < |items| ==> Within(items[i], w.items[i])
    case Str(_) => w == v
    case Other(_) => w == v
  }

  ghost predicate Like(f: Field, gs: seq<Field>, j: int)
    decreases f
  {
    0 <= j < |gs| && f.name == gs[j].name && Within(f.value, gs[j].value)
  }

  /** The same tree with the fields of its objects, whose names differ, in some other
      order. */
  ghost predicate Reordered(v: Json, w: Json)
  {
    Within(v, w) && Within(w, v)
  }

  ghost predicate AllReordered(vs: seq<Json>, ws: seq<Json>)
  {
    |vs| == |ws| && forall i :: 0 <= i < |vs| ==> Reordered(vs[i], ws[i])
  }

  lemma {:induction false} MetInField(r: Rules, fields: seq<Field>, x: Meeting)
    ensures x in MeetsFields(r, fields)
            <==> exists i :: 0 <= i < |fields| && x in Meets(r, fields[i].value, fields[i].name)
  {
    if fields != [] {
      var n := |fields| - 1;
      MetInField(r, fields[..n], x);
      assert forall i :: 0 <= i < n ==> fields[..n][i] == fields[i];
    }
  }

  lemma {:induction false} MetInItem(r: Rules, items: seq<Json>, key: string, x: Meeting)
    ensures x in MeetsItems(r, items, key) <==> exists i :: 0 <= i < |items| && x in Meets(r, items[i], key)
  {
    if items != [] {
      var n := |items| - 1;
      MetInItem(r, items[..n], key, x);
      assert forall i :: 0 <= i < n ==> items[..n][i] == items[i];
    }
  }

  /** Reordering changes when an identity is met, not whether or under which keys. */
  lemma {:induction false} MeetingsGo(r: Rules, v: Json, w: Json, key: string, x: Meeting)
    requires Within(v, w) && x in Meets(r, v, key)
    ensures x in Meets(r, w, key)
    decreases v
  {
    match v
    case Obj(fields) =>
      var i := MetWhere(r, fields, x);
      var j :| Like(fields[i], w.fields, j);
      MeetingsGo(r, fields[i].value, w.fields[j].value, fields[i].name, x);
      MetHere(r, w.fields, j, x);
    case Arr(items) =>
      MetInItem(r, items, key, x);
      var i :| 0 <= i < |items| && x in Meets(r, items[i], key);
      MeetingsGo(r, items[i], w.items[i], key, x);
      MetInItem(r, w.items, key, x);
    case Str(_) =>
    case Other(_) =>
  }

  lemma {:induction false} MetWhere(r: Rules, fields: seq<Field>, x: Meeting) returns (i: nat)
    requires x in MeetsFields(r, fields)
    ensures i < |fields| && x in Meets(r, fields[i].value, fields[i].name)
  {
    MetInField(r, fields, x);
    i :| 0 <= i < |fields| && x in Meets(r, fields[i].value, fields[i].name);
  }

  lemma {:induction false} MetHere(r: Rules, fields: seq<Field>, i: nat, x: Meeting)
    requires i < |fields| && x in Meets(r, fields[i].value, fields[i].name)
    ensures x in MeetsFields(r, fields)
  {
    MetInField(r, fields, x);
  }

  lemma {:induction false} ItemMeetingsStay(r: Rules, vs: seq<Json>, ws: seq<Json>, key: string, x: Meeting)
    requires AllReordered(vs, ws)
    ensures x in MeetsItems(r, vs, key) <==> x in MeetsItems(r, ws, key)
  {
    MetInItem(r, vs, key, x);
    MetInItem(r, ws, key, x);
    forall i | 0 <= i < |vs| ensures x in Meets(r, vs[i], key) <==> x in Meets(r, ws[i], key) {
      if x in Meets(r, vs[i], key) { MeetingsGo(r, vs[i], ws[i], key, x); }
      if x in Meets(r, ws[i], key) { MeetingsGo(r, ws[i], vs[i], key, x); }
    }
  }

  predicate Clash(r: Rules, x: Meeting, y: Meeting)
  {
    x.original != y.original && r.hash(x.original) == r.hash(y.original) && BucketForKey(x.key) == BucketForKey(y.key)
  }

  /** No two different identities with one hash are ever met under keys of one bucket. */
  predicate NoClash(r: Rules, xs: seq<Meeting>)
  {
    forall x, y :: x in xs && y in xs ==> !Clash(r, x, y)
  }

  /** Every identity is met under keys of one bucket only. */
  predicate OneBucketEach(xs: seq<Meeting>)
  {
    forall x, y :: x in xs && y in xs && x.original == y.original ==> BucketForKey(x.key) == BucketForKey(y.key)
  }

  lemma {:induction false} NoClashSuffices(r: Rules, xs: seq<Meeting>)
    requires NoClash(r, xs)
    ensures Unambiguous(r, xs)
  {
    forall i, j | 0 <= i < |xs| && 0 <= j < |xs| && IsFirst(xs, i) && IsFirst(xs, j)
                  && BucketForKey(xs[i].key) == BucketForKey(xs[j].key)
                    && r.hash(xs[i].original) == r.hash(xs[j].original)
      ensures i == j
    {
      assert !Clash(r, xs[i], xs[j]);
    }
  }

  lemma {:induction false} FirstOf(xs: seq<Meeting>, x: Meeting) returns (i: nat)
    requires x in xs
    ensures i < |xs| && IsFirst(xs, i) && xs[i].original == x.original
  {
    var n := |xs| - 1;
    if y :| y in xs[..n] && y.original == x.original {
      i := FirstOf(xs[..n], y);
      assert forall j :: 0 <= j <= i ==> xs[..n][j] == xs[j];
    } else {
      i := n;
      assert forall j :: 0 <= j < n ==> xs[..n][j] == xs[j] && xs[j] in xs[..n];
    }
  }

  lemma {:induction false} NoClashIsNeeded(r: Rules, xs: seq<Meeting>)
    requires OneBucketEach(xs) && Unambiguous(r, xs)
    ensures NoClash(r, xs)
  {
    forall x, y | x in xs && y in xs ensures !Clash(r, x, y) {
      var i := FirstOf(xs, x);
      var j := FirstOf(xs, y);
      assert xs[i] in xs && xs[j] in xs;
    }
  }

  /** Where no two identities clash, the dump reads back whatever the order of the
      fields; where each identity keeps to one bucket, it does so only then. */
  lemma {:induction false} ReadableInAnyOrder(r: Rules, vs: seq<Json>, ws: seq<Json>)
    requires AllReordered(vs, ws)
    ensures NoClash(r, MeetsItems(r, vs, "")) ==> Unambiguous(r, MeetsItems(r, ws, ""))
    ensures OneBucketEach(MeetsItems(r, vs, ""))
            ==> (Unambiguous(r, MeetsItems(r, ws, "")) <==> NoClash(r, MeetsItems(r, vs, "")))
  {
    var xs, ys := MeetsItems(r, vs, ""), MeetsItems(r, ws, "");
    forall x ensures x in xs <==> x in ys {
      ItemMeetingsStay(r, vs, ws, "", x);
    }
    if NoClash(r, xs) {
      NoClashSuffices(r, ys);
    }
    if OneBucketEach(xs) && Unambiguous(r, ys) {
      NoClashIsNeeded(r, ys);
    }
  }

  /** Otherwise the order can decide: one identity under keys of two buckets. */
  lemma {:induction false} OrderCanDecide(r: Rules, k: string, l: string, a: string, b: string, f: Field, g: Field)
    requires Identifies(r, k) && Identifies(r, l) && BucketForKey(k) != BucketForKey(l)
    requires a != "" && b != "" && a != b && r.hash(a) == r.hash(b)
    requires f == Field(k, Arr([Str(b), Str(a)])) && g == Field(l, Str(a))
    ensures Reordered(Obj([f, g]), Obj([g, f]))
    ensures !Unambiguous(r, MeetsItems(r, [Obj([f, g])], "")) && Unambiguous(r, MeetsItems(r, [Obj([g, f])], ""))
  {
    var x, y, z := Meeting(k, b), Meeting(k, a), Meeting(l, a);
    OrderedMeets(r, f, g, k, l, a, b);
    var xs := [x, y, z];
    assert IsFirst(xs, 0) && IsFirst(xs, 1);
    var ys := [z, x, y];
    assert ys[0].original == ys[2].original;
    assert !IsFirst(ys, 2);
    assert Within(Str(a), Str(a)) && Within(Str(b), Str(b));
    SameInOtherOrder(f, g);
  }

  lemma {:induction false} SameInOtherOrder(f: Field, g: Field)
    requires Within(f.value, f.value) && Within(g.value, g.value)
    ensures Reordered(Obj([f, g]), Obj([g, f]))
  {
    WithinOther(f, g, [f, g], [g, f]);
    WithinOther(g, f, [g, f], [f, g]);
  }

  lemma {:induction false} WithinOther(f: Field, g: Field, fs: seq<Field>, gs: seq<Field>)
    requires Within(f.value, f.value) && Within(g.value, g.value) && fs == [f, g] && gs == [g, f]
    ensures Within(Obj(fs), Obj(gs))
  {
    assert Like(fs[0], gs, 1) && Like(fs[1], gs, 0);
  }

  lemma {:induction false} OrderedMeets(r: Rules, f: Field, g: Field, k: string, l: string, a: string, b: string)
    requires Identifies(r, k) && Identifies(r, l) && a != "" && b != ""
    requires f == Field(k, Arr([Str(b), Str(a)])) && g == Field(l, Str(a))
    ensures MeetsItems(r, [Obj([f, g])], "") == [Meeting(k, b), Meeting(k, a), Meeting(l, a)]
    ensures MeetsItems(r, [Obj([g, f])], "") == [Meeting(l, a), Meeting(k, b), Meeting(k, a)]
  {
    MeetsObject(r, [f, g]);
    MeetsObject(r, [g, f]);
    MeetsTwoFields(r, f, g);
    MeetsTwoFields(r, g, f);
    MeetsPair(r, b, a, k);
    assert Meets(r, g.value, l) == MeetsString(r, l, a);
  }
}
