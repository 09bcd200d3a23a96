/** JSON documents as the scripts see them after `json.load`: a dict keeps its
    members in insertion order, so an object is a sequence of members. */
module JsonValue {

  datatype Option<T> = None | Some(value: T)

  datatype Json =
    | Null
    | Bool(b: bool)
    | Num(n: real)
    | Str(s: string)
    | Arr(items: seq<Json>)
    | Obj(members: seq<Member>)

  datatype Member = Member(key: string, value: Json)

  /** `d.get(key)` on the members of a dict: the value stored under `key`. */
  function Lookup(ms: seq<Member>, key: string): Option<Json>
  {
    if ms == [] then None
    else if ms[0].key == key then Some(ms[0].value)
    else Lookup(ms[1..], key)
  }

  /** A lookup finds a member stored under the key, and finds one exactly
      when the key is present. */
  lemma {:induction false} LookupSound(ms: seq<Member>, key: string)
    ensures Lookup(ms, key).Some? ==> Member(key, Lookup(ms, key).value) in ms
    ensures Lookup(ms, key).None? <==> key !in Keys(ms)
  {
    if ms != [] {
      LookupSound(ms[1..], key);
      assert ms == [ms[0]] + ms[1..];
    }
  }

  function Keys(ms: seq<Member>): set<string>
  {
    set m | m in ms :: m.key
  }

  /** The members of a dict; anything that is not a dict is read as empty. */
  function MembersOf(j: Json): seq<Member>
  {
    if j.Obj? then j.members else []
  }

  /** `j.get(key)`. */
  function Get(j: Json, key: string): Option<Json>
  {
    Lookup(MembersOf(j), key)
  }

  /** `j.get(key, default)`. */
  function GetOr(j: Json, key: string, default: Json): Json
  {
    var r := Get(j, key);
    if r.Some? then r.value else default
  }

  /** The members whose key is in `keep`, in their original order and with
      their values unchanged (a dict filled by a `for ... in d.items()` loop
      guarded by `if key in keep`). */
  function FilterMembers(ms: seq<Member>, keep: set<string>): (r: seq<Member>)
    ensures |r| <= |ms|
    ensures forall m :: m in r <==> m in ms && m.key in keep
  {
    if ms == [] then []
    else if ms[|ms| - 1].key in keep then FilterMembers(ms[..|ms| - 1], keep) + [ms[|ms| - 1]]
    else FilterMembers(ms[..|ms| - 1], keep)
  }

  /** Filtering keeps exactly the kept keys, and looking a kept key up in the
      filtered members gives what it gave in the original ones. */
  lemma {:induction false} LookupFiltered(ms: seq<Member>, keep: set<string>, key: string)
    ensures Lookup(FilterMembers(ms, keep), key) == if key in keep then Lookup(ms, key) else None
  {
    if ms != [] {
      var n := |ms| - 1;
      LookupFiltered(ms[..n], keep, key);
      LookupAppend(ms[..n], ms[n], key);
      if ms[n].key in keep {
        LookupAppend(FilterMembers(ms[..n], keep), ms[n], key);
      }
      assert ms[..n] + [ms[n]] == ms;
    }
  }

  lemma {:induction false} LookupAppend(ms: seq<Member>, m: Member, key: string)
    ensures Lookup(ms + [m], key) == if Lookup(ms, key).Some? then Lookup(ms, key)
                                     else if m.key == key then Some(m.value) else None
  {
    if ms != [] {
      assert (ms + [m])[1..] == ms[1..] + [m];
      LookupAppend(ms[1..], m, key);
    }
  }

  /** Looking a key up in a dict literal: the first member decides if its key
      matches, otherwise the rest is searched. */
  lemma LookupCons(m: Member, rest: seq<Member>, key: string)
    ensures Lookup([m] + rest, key) == if m.key == key then Some(m.value) else Lookup(rest, key)
  {
    assert ([m] + rest)[1..] == rest;
  }

  /** A key found in the first part of a dict is found there whatever follows. */
  lemma {:induction false} LookupConcat(a: seq<Member>, b: seq<Member>, key: string)
    ensures Lookup(a + b, key) == if Lookup(a, key).Some? then Lookup(a, key) else Lookup(b, key)
  {
    if a != [] {
      assert (a + b)[1..] == a[1..] + b;
      LookupConcat(a[1..], b, key);
    } else {
      assert a + b == b;
    }
  }

  /** Filtering keeps the original order: it distributes over concatenation. */
  lemma {:induction false} FilterAppend(a: seq<Member>, b: seq<Member>, keep: set<string>)
    ensures FilterMembers(a + b, keep) == FilterMembers(a, keep) + FilterMembers(b, keep)
    decreases |b|
  {
    if b == [] {
      assert a + b == a;
    } else {
      var n := |b| - 1;
      assert (a + b)[..|a + b| - 1] == a + b[..n];
      assert (a + b)[|a + b| - 1] == b[n];
      FilterAppend(a, b[..n], keep);
      if b[n].key in keep {
        assert FilterMembers(a + b, keep) == FilterMembers(a + b[..n], keep) + [b[n]];
      } else {
        assert FilterMembers(a + b, keep) == FilterMembers(a + b[..n], keep);
      }
    }
  }

  /** Filtering twice is filtering once by both key sets. */
  lemma {:induction false} FilterFilter(ms: seq<Member>, a: set<string>, b: set<string>)
    ensures FilterMembers(FilterMembers(ms, a), b) == FilterMembers(ms, a * b)
  {
    if ms != [] {
      var n := |ms| - 1;
      FilterFilter(ms[..n], a, b);
      var fa := FilterMembers(ms[..n], a);
      if ms[n].key in a {
        assert (fa + [ms[n]])[..|fa|] == fa;
      }
    }
  }
}
