// When one snapshot is a less complete view of the same value than another.
module JsonOrder {
  import opened JsonText

  // Strings and number tokens by prefix, arrays by prefix with a lower last element,
  // objects by key subset with lower values.
  ghost predicate Below(v: Value, w: Value)
    decreases v
  {
    match v
    case Null => w == v
    case Bool(_) => w == v
    case Number(t) => w.Number? && t <= w.token
    case String(t) => w.String? && t <= w.text
    case Array(items) => w.Array? && ItemsBelow(items, w.items)
    case Object(members) => w.Object? && forall k :: k in members ==> k in w.members && Below(members[k], w.members[k])
  }

  ghost predicate ItemsBelow(xs: seq<Value>, ys: seq<Value>)
    decreases xs
  {
    xs == [] || (
      && |xs| <= |ys|
      && xs[..|xs| - 1] == ys[..|xs| - 1]
      && Below(xs[|xs| - 1], ys[|xs| - 1]))
  }

  ghost predicate MembersBelow(xs: map<string, Value>, ys: map<string, Value>) {
    forall k :: k in xs ==> k in ys && Below(xs[k], ys[k])
  }

  lemma {:induction false} BelowReflexive(v: Value)
    ensures Below(v, v)
    decreases v
  {
    match v
    case Array(items) =>
      if items != [] {
        BelowReflexive(items[|items| - 1]);
      }
    case Object(members) =>
      forall k | k in members
        ensures Below(members[k], members[k])
      {
        BelowReflexive(members[k]);
      }
    case _ =>
  }

  lemma {:induction false} BelowTransitive(u: Value, v: Value, w: Value)
    requires Below(u, v) && Below(v, w)
    ensures Below(u, w)
    decreases u
  {
    match u
    case Array(items) => ItemsTransitive(items, v.items, w.items);
    case Object(members) =>
      forall k | k in members
        ensures k in w.members && Below(members[k], w.members[k])
      {
        assert k in v.members;
        BelowTransitive(members[k], v.members[k], w.members[k]);
      }
    case _ =>
  }

  lemma {:induction false} ItemsTransitive(xs: seq<Value>, ys: seq<Value>, zs: seq<Value>)
    requires ItemsBelow(xs, ys) && ItemsBelow(ys, zs)
    ensures ItemsBelow(xs, zs)
    decreases xs
  {
    if xs != [] {
      var n := |xs| - 1;
      assert ys[..n] == ys[..|ys| - 1][..n] == zs[..|ys| - 1][..n] == zs[..n];
      if |xs| == |ys| {
        BelowTransitive(xs[n], ys[n], zs[n]);
      } else {
        assert ys[n] == ys[..|ys| - 1][n] == zs[..|ys| - 1][n] == zs[n];
      }
    }
  }

  lemma {:induction false} BelowAntisymmetric(v: Value, w: Value)
    requires Below(v, w) && Below(w, v)
    ensures v == w
    decreases v
  {
    match v
    case Array(items) =>
      if items != [] && w.items != [] {
        var n := |items| - 1;
        BelowAntisymmetric(items[n], w.items[n]);
        assert items == items[..n] + [items[n]];
        assert w.items == w.items[..n] + [w.items[n]];
      }
    case Object(members) =>
      forall k | k in members
        ensures k in w.members && members[k] == w.members[k]
      {
        BelowAntisymmetric(members[k], w.members[k]);
      }
      assert members.Keys == w.members.Keys;
    case _ =>
  }

  // A list of items is below any list it is a prefix of.
  lemma {:induction false} PrefixBelow(xs: seq<Value>, ys: seq<Value>)
    requires xs <= ys
    ensures ItemsBelow(xs, ys)
  {
    if xs != [] {
      assert xs[|xs| - 1] == ys[|xs| - 1];
      BelowReflexive(xs[|xs| - 1]);
    }
  }

  lemma {:induction false} LastBelow(items: seq<Value>, x: Value, ys: seq<Value>)
    requires |items| < |ys| && items == ys[..|items|] && Below(x, ys[|items|])
    ensures ItemsBelow(items + [x], ys)
  {
    assert (items + [x])[..|items|] == items;
  }

  // Nothing in `members` is lost or changed in `more`.
  ghost predicate Kept(members: map<string, Value>, more: map<string, Value>) {
    forall k :: k in members ==> k in more && more[k] == members[k]
  }

  lemma {:induction false} KeptBelow(members: map<string, Value>, more: map<string, Value>)
    requires Kept(members, more)
    ensures MembersBelow(members, more)
  {
    forall k | k in members
      ensures k in more && Below(members[k], more[k])
    {
      BelowReflexive(members[k]);
    }
  }

  // One more member, lower than the one it will become.
  lemma {:induction false} MemberBelow(members: map<string, Value>, key: string, x: Value, more: map<string, Value>)
    requires key !in members && Kept(members, more) && key in more && Below(x, more[key])
    ensures MembersBelow(members[key := x], more)
  {
    KeptBelow(members, more);
  }
}
