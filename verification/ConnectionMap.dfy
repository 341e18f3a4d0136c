/** The expiring connection table of types.go and the conditional adds that
    rescanConns performs on it.  Keys are kept generic so that the table keyed by
    printed address pairs can be compared with one keyed by the pairs themselves. */
module ConnectionMap {

  datatype Entry = Entry(value: string, timestamp: int)

  /** One key of a listed connection, with the time an Add of it would record. */
  datatype Touch<K> = Touch(key: K, inode: string, at: int)

  predicate Exists<K>(dict: map<K, Entry>, key: K, value: string) {
    key in dict && dict[key].value == value
  }

  /** The value of a key; a missing key reads as the empty string. */
  function Value<K>(dict: map<K, Entry>, key: K): string {
    if key in dict then dict[key].value else ""
  }

  function Added<K>(dict: map<K, Entry>, t: Touch<K>): map<K, Entry> {
    dict[t.key := Entry(t.inode, t.at)]
  }

  /** Add unless the key already holds the inode. */
  function Listed<K>(dict: map<K, Entry>, t: Touch<K>): map<K, Entry> {
    if Exists(dict, t.key, t.inode) then dict else Added(dict, t)
  }

  function ListAll<K>(dict: map<K, Entry>, ts: seq<Touch<K>>): map<K, Entry> {
    if ts == [] then dict else Listed(ListAll(dict, ts[..|ts| - 1]), ts[|ts| - 1])
  }

  /** The same list added without looking. */
  ghost function AddAll<K>(dict: map<K, Entry>, ts: seq<Touch<K>>): map<K, Entry> {
    if ts == [] then dict else Added(AddAll(dict, ts[..|ts| - 1]), ts[|ts| - 1])
  }

  function Kept<K>(dict: map<K, Entry>, now: int, expiration: int): map<K, Entry> {
    map k | k in dict && !(now - dict[k].timestamp > expiration) :: dict[k]
  }

  /** What can happen to the table. */
  datatype TableOp<K> = Put(t: Touch<K>) | List(t: Touch<K>) | Clean(now: int, expiration: int) | Remove(key: K)

  function Done<K>(dict: map<K, Entry>, op: TableOp<K>): map<K, Entry> {
    match op
    case Put(t) => Added(dict, t)
    case List(t) => Listed(dict, t)
    case Clean(now, expiration) => Kept(dict, now, expiration)
    case Remove(key) => dict - {key}
  }

  function AllDone<K>(dict: map<K, Entry>, ops: seq<TableOp<K>>): map<K, Entry> {
    if ops == [] then dict else Done(AllDone(dict, ops[..|ops| - 1]), ops[|ops| - 1])
  }

  // ---------------------------------------------- conditional adds are adds

  ghost predicate InOrder<K>(ts: seq<Touch<K>>) {
    forall i, j :: 0 <= i < j < |ts| ==> ts[i].at <= ts[j].at
  }

  ghost predicate NotNewer<K>(dict: map<K, Entry>, t: int) {
    forall k :: k in dict ==> dict[k].timestamp <= t
  }

  ghost predicate SameValues<K>(a: map<K, Entry>, b: map<K, Entry>) {
    a.Keys == b.Keys && forall k :: k in a ==> a[k].value == b[k].value
  }

  ghost predicate NoNewerThan<K>(a: map<K, Entry>, b: map<K, Entry>) {
    forall k :: k in a && k in b ==> a[k].timestamp <= b[k].timestamp
  }

  /** After any list of conditional adds every lookup answers as after blind adds,
      for any starting table. */
  lemma {:induction false} ConditionalRefinesBlind<K>(dict: map<K, Entry>, ts: seq<Touch<K>>)
    ensures SameValues(ListAll(dict, ts), AddAll(dict, ts))
  {
    if ts != [] {
      ConditionalRefinesBlind(dict, ts[..|ts| - 1]);
    }
  }

  /** Conditional adds never record a newer time than blind adds would. */
  lemma {:induction false} ConditionalNeverNewer<K>(dict: map<K, Entry>, ts: seq<Touch<K>>, start: int)
    requires InOrder(ts) && NotNewer(dict, start)
    requires ts != [] ==> start <= ts[0].at
    ensures NoNewerThan(ListAll(dict, ts), AddAll(dict, ts))
    ensures NotNewer(ListAll(dict, ts), if ts == [] then start else ts[|ts| - 1].at)
  {
    if ts != [] {
      ConditionalNeverNewer(dict, ts[..|ts| - 1], start);
      ConditionalRefinesBlind(dict, ts[..|ts| - 1]);
    }
  }

  /** `inode` belongs to the last touch of `key` in the list. */
  ghost predicate LastTouch<K>(ts: seq<Touch<K>>, key: K, inode: string) {
    exists i :: 0 <= i < |ts| && ts[i].key == key && ts[i].inode == inode
                && forall j :: i < j < |ts| ==> ts[j].key != key
  }

  predicate Touched<K(==)>(ts: seq<Touch<K>>, key: K) {
    exists i :: 0 <= i < |ts| && ts[i].key == key
  }

  /** Last writer wins: a listed key holds the inode of the last listed
      connection touching it, and every other key keeps its entry. */
  lemma {:induction false} LastWriterWins<K>(dict: map<K, Entry>, ts: seq<Touch<K>>, key: K)
    ensures Touched(ts, key) ==> key in ListAll(dict, ts) && LastTouch(ts, key, ListAll(dict, ts)[key].value)
    ensures !Touched(ts, key) ==>
              (key in ListAll(dict, ts) <==> key in dict) &&
              (key in dict ==> ListAll(dict, ts)[key] == dict[key])
  {
    if ts != [] {
      var p, t := ts[..|ts| - 1], ts[|ts| - 1];
      LastWriterWins(dict, p, key);
      if t.key == key {
        assert ts[|ts| - 1].inode == ListAll(dict, ts)[key].value;
      } else if Touched(p, key) {
        var i :| 0 <= i < |p| && p[i].key == key && p[i].inode == ListAll(dict, p)[key].value
                 && forall j :: i < j < |p| ==> p[j].key != key;
        assert ts[i].key == key;
        assert forall j :: i < j < |ts| ==> ts[j].key != key;
      } else {
        assert forall i :: 0 <= i < |p| ==> p[i] == ts[i];
      }
    }
  }

  /** No two touches of one key disagree on the inode. */
  ghost predicate Consistent<K>(ts: seq<Touch<K>>) {
    forall i, j :: 0 <= i < |ts| && 0 <= j < |ts| && ts[i].key == ts[j].key ==> ts[i].inode == ts[j].inode
  }

  // -------------------------------------------------------------- expiration

  /** Cleanup keeps exactly the entries that are not older than the expiration. */
  lemma KeptExactly<K>(dict: map<K, Entry>, now: int, expiration: int, key: K)
    ensures key in Kept(dict, now, expiration) <==> key in dict && now - dict[key].timestamp <= expiration
    ensures key in Kept(dict, now, expiration) ==> Kept(dict, now, expiration)[key] == dict[key]
  {
  }

  // -------------------------------------------------------- the mutable table

  class Mapping {
    var dict: map<string, Entry>

    constructor ()
      ensures dict == map[]
    {
      dict := map[];
    }

    method Add(key: string, value: string, now: int)
      modifies this
      ensures dict == old(dict)[key := Entry(value, now)]
    {
      dict := dict[key := Entry(value, now)];
    }

    method Contains(key: string, value: string) returns (found: bool)
      ensures found <==> key in dict && dict[key].value == value
    {
      found := key in dict && dict[key].value == value;
    }

    method Get(key: string) returns (value: string, found: bool)
      ensures found <==> key in dict
      ensures value == if key in dict then dict[key].value else ""
    {
      if key !in dict {
        return "", false;
      }
      return dict[key].value, true;
    }

    method Delete(key: string)
      modifies this
      ensures dict == old(dict) - {key}
    {
      dict := dict - {key};
    }

    /** Deletes the expired entries one by one, in any iteration order. */
    method Cleanup(now: int, expiration: int)
      modifies this
      ensures dict == Kept(old(dict), now, expiration)
      ensures forall key :: key in dict <==> key in old(dict) && now - old(dict)[key].timestamp <= expiration
      ensures forall key :: key in dict ==> dict[key] == old(dict)[key]
    {
      var todo := dict.Keys;
      while todo != {}
        invariant todo <= dict.Keys <= old(dict).Keys
        invariant forall k :: k in dict ==> dict[k] == old(dict)[k]
        invariant forall k :: k in old(dict) && k !in todo ==>
                    (k in dict <==> now - old(dict)[k].timestamp <= expiration)
        decreases |todo|
      {
        var key :| key in todo;
        if now - dict[key].timestamp > expiration {
          dict := dict - {key};
        }
        todo := todo - {key};
      }
    }
  }
}
