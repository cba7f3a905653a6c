/** Facts about removing keys from finite maps. */
module MapFacts {

  /** Removing one more key: the map shrinks by that key and the set of removed keys grows by one. */
  lemma RemoveOneMore<V>(m: map<string, V>, gone: set<string>, k: string)
    requires k !in gone
    ensures m - (gone + {k}) == (m - gone) - {k}
    ensures |gone + {k}| == |gone| + 1
  {
    assert (m - (gone + {k})).Keys == ((m - gone) - {k}).Keys;
  }
}
