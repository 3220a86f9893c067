/** Go's `for k := range m`, whose visiting order the language leaves unspecified. */
module GoMaps {

  /** The order in which `range` visits the keys of a Go map: unspecified, each key once. */
  method MapOrder<V>(m: map<string, V>) returns (keys: seq<string>)
    ensures forall k :: k in keys <==> k in m
    ensures forall i, j :: 0 <= i < j < |keys| ==> keys[i] != keys[j]
    ensures |keys| == |m|
  {
    keys := [];
    var rest := m.Keys;
    while rest != {}
      invariant rest <= m.Keys
      invariant forall k :: k in m ==> (k in keys <==> k !in rest)
      invariant forall k :: k in keys ==> k in m
      invariant forall i, j :: 0 <= i < j < |keys| ==> keys[i] != keys[j]
      invariant |keys| + |rest| == |m|
      decreases |rest|
    {
      var k :| k in rest;
      keys := keys + [k];
      rest := rest - {k};
    }
  }
}
