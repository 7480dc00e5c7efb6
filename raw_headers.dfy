/** The flat raw-header list `[name0, value0, name1, value1, ...]` that the
    native parser hands to the message callbacks, and the fold of that list
    into the `headers` dictionary keyed by lowercase name (index.js). */
module RawHeaders {
  import opened Wrappers
  import opened Text

  /** JavaScript's `raw[i]`: the entry at `i`, or `undefined` past the end. */
  function At(raw: seq<string>, i: nat): Option<string>
  {
    if i < |raw| then Some(raw[i]) else None
  }

  /** One name with the entry that follows it (absent for a trailing name). */
  datatype Header = Header(name: string, value: Option<string>)

  /** The names at even indices, each paired with the next entry: the
      iterations `i = 0, 2, 4, ...` of the fold loop. */
  function Pairs(raw: seq<string>): seq<Header>
  {
    seq((|raw| + 1) / 2, j requires 0 <= j < (|raw| + 1) / 2 => Header(raw[2 * j], At(raw, 2 * j + 1)))
  }

  /** The one name a plain JavaScript object does not take as an own key:
      assigning to `headers['__proto__']` calls the prototype setter, which
      ignores a string or `undefined`, so nothing is stored. */
  const ProtoKey: string := "__proto__"

  /** Assigns the pairs in order into a dictionary keyed by lowercase name;
      a later pair overwrites an earlier one with the same key, and a name
      lowercasing to `__proto__` stores nothing. */
  function FoldMap(ps: seq<Header>): (m: map<string, Option<string>>)
    ensures ProtoKey !in m
  {
    if ps == [] then map[]
    else
      var k := Lower(ps[|ps| - 1].name);
      if k == ProtoKey then FoldMap(ps[..|ps| - 1])
      else FoldMap(ps[..|ps| - 1])[k := ps[|ps| - 1].value]
  }

  /** The `headers` dictionary built from a raw list; it never has the key `__proto__`. */
  function Normalize(raw: seq<string>): (m: map<string, Option<string>>)
    ensures ProtoKey !in m
  {
    FoldMap(Pairs(raw))
  }

  /** A key other than `__proto__` is present exactly when some pair's name
      lowercases to it. */
  lemma {:induction false} FoldMapKeys(ps: seq<Header>, k: string)
    requires k != ProtoKey
    ensures k in FoldMap(ps) <==> exists j :: 0 <= j < |ps| && Lower(ps[j].name) == k
  {
    if ps != [] {
      var init := ps[..|ps| - 1];
      FoldMapKeys(init, k);
      if k in FoldMap(init) {
        var j :| 0 <= j < |init| && Lower(init[j].name) == k;
        assert ps[j] == init[j];
      }
      if exists j :: 0 <= j < |ps| && Lower(ps[j].name) == k {
        var j :| 0 <= j < |ps| && Lower(ps[j].name) == k;
        if j < |init| {
          assert init[j] == ps[j];
        }
      }
    }
  }

  /** The value under a key is that of the last pair whose name lowercases to it. */
  lemma {:induction false} FoldMapLastWins(ps: seq<Header>, j: nat)
    requires j < |ps| && Lower(ps[j].name) != ProtoKey
    requires forall j' :: j < j' < |ps| ==> Lower(ps[j'].name) != Lower(ps[j].name)
    ensures Lower(ps[j].name) in FoldMap(ps)
    ensures FoldMap(ps)[Lower(ps[j].name)] == ps[j].value
  {
    if j < |ps| - 1 {
      var init := ps[..|ps| - 1];
      assert init[j] == ps[j];
      FoldMapLastWins(init, j);
    }
  }

  /** Raw-list form of `FoldMapKeys`: `k` is a key of the dictionary exactly
      when it is not `__proto__` and some even index of the raw list holds a
      name lowercasing to `k`. */
  lemma NormalizeKeys(raw: seq<string>, k: string)
    ensures k in Normalize(raw) <==> k != ProtoKey && exists i :: 0 <= i < |raw| && i % 2 == 0 && Lower(raw[i]) == k
  {
    if k == ProtoKey {
      return;
    }
    var ps := Pairs(raw);
    FoldMapKeys(ps, k);
    if k in Normalize(raw) {
      var j :| 0 <= j < |ps| && Lower(ps[j].name) == k;
      assert 2 * j < |raw| && (2 * j) % 2 == 0 && Lower(raw[2 * j]) == k;
    } else {
      forall i | 0 <= i < |raw| && i % 2 == 0
        ensures Lower(raw[i]) != k
      {
        assert ps[i / 2].name == raw[i];
      }
    }
  }

  /** Raw-list form of `FoldMapLastWins`: for the greatest even index `i`
      whose name lowercases to a key, the key maps to the entry after `i`
      (absent when `i` is the last index). Case variants of one name share a key. */
  lemma NormalizeLastWins(raw: seq<string>, i: nat)
    requires i < |raw| && i % 2 == 0 && Lower(raw[i]) != ProtoKey
    requires forall i' :: i < i' < |raw| && i' % 2 == 0 ==> Lower(raw[i']) != Lower(raw[i])
    ensures Lower(raw[i]) in Normalize(raw)
    ensures Normalize(raw)[Lower(raw[i])] == At(raw, i + 1)
  {
    var ps := Pairs(raw);
    forall j' | i / 2 < j' < |ps|
      ensures Lower(ps[j'].name) != Lower(ps[i / 2].name)
    {
      assert ps[j'].name == raw[2 * j'];
    }
    FoldMapLastWins(ps, i / 2);
  }

  /** The loop of `_onHeadersComplete`: step through the raw list two at a time
      and assign `headers[raw[i].toLowerCase()] = raw[i + 1]`, which a plain
      object ignores for the key `__proto__`. */
  method FoldHeaders(raw: seq<string>) returns (headers: map<string, Option<string>>)
    ensures headers == Normalize(raw)
  {
    headers := map[];
    var i := 0;
    while i < |raw|
      invariant i % 2 == 0 && i <= |raw| + 1
      invariant headers == FoldMap(Pairs(raw)[..i / 2])
    {
      ghost var done := Pairs(raw)[..i / 2 + 1];
      assert done[..|done| - 1] == Pairs(raw)[..i / 2];
      assert done[|done| - 1] == Header(raw[i], At(raw, i + 1));
      var key := Lower(raw[i]);
      if key != ProtoKey {
        headers := headers[key := At(raw, i + 1)];
      }
      i := i + 2;
    }
    assert Pairs(raw)[..i / 2] == Pairs(raw);
  }
}
