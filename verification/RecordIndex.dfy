/**
 Indexing trace records by identity. Records may repeat and arrive in any order; an identity that two
 different records claim is dropped altogether.
 */
module RecordIndex {
  import opened Options

  /** Among these records, `e` is the one that has this identity: it occurs, and nothing else claims it. */
  ghost predicate Names<T, K>(entries: seq<T>, key: T -> Option<K>, id: K, e: T) {
    e in entries && key(e) == Some(id) && forall x <- entries :: key(x) == Some(id) ==> x == e
  }

  /** Two different records claim the identity. */
  ghost predicate Disputed<T, K>(entries: seq<T>, key: T -> Option<K>, id: K) {
    exists x, y :: x in entries && y in entries && x != y && key(x) == Some(id) && key(y) == Some(id)
  }

  function Invalid<T, K>(entries: seq<T>, key: T -> Option<K>): nat {
    if entries == [] then 0
    else Invalid(entries[..|entries| - 1], key) + if key(entries[|entries| - 1]).None? then 1 else 0
  }

  /** What the two collections hold after some records: the last record of every identity, and the disputed ones. */
  ghost predicate Noted<T, K(!new)>(entries: seq<T>, key: T -> Option<K>, unique: map<K, T>, conflicts: set<K>) {
    && (forall id: K :: id in unique <==> exists e :: e in entries && key(e) == Some(id))
    && (forall id <- unique :: unique[id] in entries && key(unique[id]) == Some(id))
    && (forall e <- entries :: key(e).Some? && key(e).value !in conflicts ==> key(e).value in unique && unique[key(e).value] == e)
    && (forall id <- conflicts :: Disputed(entries, key, id))
  }

  /** One more record without an identity. */
  lemma NotedNone<T(!new), K(!new)>(entries: seq<T>, key: T -> Option<K>, unique: map<K, T>, conflicts: set<K>, entry: T)
    requires Noted(entries, key, unique, conflicts) && key(entry).None?
    ensures Noted(entries + [entry], key, unique, conflicts)
  {
    hide Disputed;
    forall id <- conflicts ensures Disputed(entries + [entry], key, id) {
      DisputedMore(entries, key, id, entry);
    }
  }

  lemma DisputedMore<T, K>(entries: seq<T>, key: T -> Option<K>, id: K, entry: T)
    requires Disputed(entries, key, id)
    ensures Disputed(entries + [entry], key, id)
  {
    var x, y :| x in entries && y in entries && x != y && key(x) == Some(id) && key(y) == Some(id);
    assert x in entries + [entry] && y in entries + [entry];
  }

  /** One more record: it becomes the last of its identity, which is in dispute if the last one before differed. */
  lemma NotedSome<T(!new), K(!new)>(entries: seq<T>, key: T -> Option<K>, unique: map<K, T>, conflicts: set<K>, entry: T, more: set<K>)
    requires Noted(entries, key, unique, conflicts) && key(entry).Some?
    requires var id := key(entry).value; more == if id in unique && unique[id] != entry then conflicts + {id} else conflicts
    ensures Noted(entries + [entry], key, unique[key(entry).value := entry], more)
  {
    hide Disputed;
    var id := key(entry).value;
    var all, next := entries + [entry], unique[id := entry];
    forall i <- more ensures Disputed(all, key, i) {
      if i in conflicts {
        DisputedMore(entries, key, i, entry);
      } else {
        DisputedBy(all, key, id, unique[id], entry);
      }
    }
    forall e <- all | key(e).Some? && key(e).value !in more ensures key(e).value in next && next[key(e).value] == e {
      if e in entries && key(e) == Some(id) {
        assert unique[id] == e;
      }
    }
    forall i: K ensures i in next <==> exists e :: e in all && key(e) == Some(i) {
      if i in next {
        var e := next[i];
        assert e in all && key(e) == Some(i);
      }
    }
  }

  lemma DisputedBy<T, K>(entries: seq<T>, key: T -> Option<K>, id: K, x: T, y: T)
    requires x in entries && y in entries && x != y && key(x) == Some(id) && key(y) == Some(id)
    ensures Disputed(entries, key, id)
  {
  }

  /** The undisputed identities that are left name their records. */
  lemma NotedAll<T(!new), K(!new)>(entries: seq<T>, key: T -> Option<K>, unique: map<K, T>, conflicts: set<K>)
    requires Noted(entries, key, unique, conflicts)
    ensures forall id: K :: id in conflicts <==> Disputed(entries, key, id)
    ensures forall id: K, e: T :: id in unique && id !in conflicts && unique[id] == e <==> Names(entries, key, id, e)
  {
    forall id: K, e: T | id in unique && id !in conflicts && unique[id] == e ensures Names(entries, key, id, e) {
      forall x <- entries | key(x) == Some(id) ensures x == e {
        assert unique[id] == x;
      }
    }
  }

  /** Index the records by identity; count those without one, and name the identities in dispute. */
  method IndexRecords<T(==, !new), K(==, !new)>(entries: seq<T>, key: T -> Option<K>)
      returns (unique: map<K, T>, invalid: nat, conflicts: set<K>)
    ensures forall id: K, e: T :: id in unique && unique[id] == e <==> Names(entries, key, id, e)
    ensures forall id: K :: id in conflicts <==> Disputed(entries, key, id)
    ensures invalid == Invalid(entries, key)
  {
    hide Noted, Names, Disputed;
    unique, invalid, conflicts := map[], 0, {};
    NotedNothing(key);
    for i := 0 to |entries|
      invariant Noted(entries[..i], key, unique, conflicts) && invalid == Invalid(entries[..i], key)
    {
      var entry := entries[i];
      assert entries[..i + 1] == entries[..i] + [entry];
      var identity := key(entry);
      if identity.None? {
        invalid := invalid + 1;
        NotedNone(entries[..i], key, unique, conflicts, entry);
        continue;
      }
      ghost var before := conflicts;
      if identity.value in unique && unique[identity.value] != entry {
        conflicts := conflicts + {identity.value};
      }
      NotedSome(entries[..i], key, unique, before, entry, conflicts);
      unique := unique[identity.value := entry];
    }
    assert entries[..|entries|] == entries;
    NotedAll(entries, key, unique, conflicts);
    unique := unique - conflicts;
  }

  lemma NotedNothing<T(!new), K(!new)>(key: T -> Option<K>)
    ensures Noted([], key, map[], {})
  {
  }

  /** Only which records occur matters, not how often or in what order. */
  method IndexTwice<T(==, !new), K(==, !new)>(a: seq<T>, b: seq<T>, key: T -> Option<K>)
      returns (first: map<K, T>, second: map<K, T>)
    requires forall e: T :: e in a <==> e in b
    ensures first == second
  {
    var n, c;
    first, n, c := IndexRecords(a, key);
    second, n, c := IndexRecords(b, key);
    forall id: K, e: T ensures Names(a, key, id, e) <==> Names(b, key, id, e) {
    }
    forall id: K ensures id in first <==> id in second {
      if id in first {
        assert Names(a, key, id, first[id]);
      }
      if id in second {
        assert Names(b, key, id, second[id]);
      }
    }
    forall id <- first ensures first[id] == second[id] {
      assert Names(a, key, id, first[id]);
    }
  }
}
