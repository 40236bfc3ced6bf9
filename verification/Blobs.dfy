/** What the stores' users share: which objects are backups, and how many bytes a collection of things weighs. */
module Blobs {
  const BACKUP_PREFIX := "backups/"

  /** Scheduled backups lie in the store with no row and no charge of their own. */
  predicate IsBackup(key: string) {
    BACKUP_PREFIX <= key
  }

  ghost function Sum<K, V>(m: map<K, V>, weight: (K, V) -> int): int {
    if m == map[] then 0
    else
      var k :| k in m;
      weight(k, m[k]) + Sum(m - {k}, weight)
  }

  lemma {:induction false} SumWithout<K, V>(m: map<K, V>, weight: (K, V) -> int, k: K)
    requires k in m
    ensures Sum(m, weight) == weight(k, m[k]) + Sum(m - {k}, weight)
  {
    var first :| first in m && Sum(m, weight) == weight(first, m[first]) + Sum(m - {first}, weight);
    if first != k {
      SumWithout(m - {first}, weight, k);
      SumWithout(m - {k}, weight, first);
      assert m - {first} - {k} == m - {k} - {first};
    }
  }

  lemma SumWith<K, V>(m: map<K, V>, weight: (K, V) -> int, k: K, v: V)
    ensures Sum(m[k := v], weight) == Sum(m, weight) + weight(k, v) - (if k in m then weight(k, m[k]) else 0)
  {
    SumWithout(m[k := v], weight, k);
    assert m[k := v] - {k} == m - {k};
    if k in m {
      SumWithout(m, weight, k);
    } else {
      assert m - {k} == m;
    }
  }
}
