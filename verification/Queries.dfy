/** The reads of `indexer/db/bbolt/bbolt.go`: ordered cursor queries over the confirmed blocks and the sorted list of
    an address's outputs. A cursor visits the keys of a bucket in byte order. */
module Queries {
  import opened Wrappers
  import opened Numbers
  import opened Sequences
  import opened Keys
  import opened IndexerData
  import opened Stores

  // ---------- confirmed blocks ----------

  function Values<V>(m: map<Key, V>, ks: seq<Key>): (r: seq<V>)
    requires forall k :: k in ks ==> k in m
    ensures |r| == |ks| && forall i :: 0 <= i < |ks| ==> r[i] == m[ks[i]]
  {
    seq(|ks|, i requires 0 <= i < |ks| => m[ks[i]])
  }

  /** `cursor.Seek`: the place of the first key that is not smaller. */
  function SeekIndex(ks: seq<Key>, key: Key): (i: nat)
    ensures i <= |ks| && (forall j :: 0 <= j < i ==> Less(ks[j], key)) && (i < |ks| ==> !Less(ks[i], key))
  {
    if ks == [] || !Less(ks[0], key) then 0
    else
      var i := SeekIndex(ks[1..], key);
      assert forall j :: 1 <= j < |ks| ==> ks[j] == ks[1..][j - 1];
      i + 1
  }

  lemma CursorKeys(cursor: seq<Key>, keys: set<Key>)
    requires IsCursor(cursor, keys)
    ensures forall x :: x in cursor <==> x in keys
  {}

  method GetConfirmedBlocksFrom(confirmed: map<Key, CardanoBlock>, cursor: seq<Key>, slot: U64, maxCnt: int)
    returns (result: seq<CardanoBlock>)
    requires IsCursor(cursor, confirmed.Keys)
    ensures result <= Values(confirmed, cursor[SeekIndex(cursor, SlotKey(slot))..])
    ensures var all := |cursor| - SeekIndex(cursor, SlotKey(slot));
            |result| == if maxCnt > 0 then Min(maxCnt, all) else all
  {
    hide Less, SlotKey, IsCursor, SeekIndex, Values;
    CursorKeys(cursor, confirmed.Keys);
    var start := SeekIndex(cursor, SlotKey(slot));
    ghost var all := Values(confirmed, cursor[start..]);
    var k := start;
    result := [];
    while k < |cursor|
      invariant start <= k <= |cursor| && |result| == k - start && result <= all
      invariant maxCnt > 0 ==> |result| < maxCnt
    {
      NextValue(confirmed, cursor, start, k, result);
      result := result + [confirmed[cursor[k]]];
      k := k + 1;
      if maxCnt > 0 && |result| == maxCnt {
        return;
      }
    }
  }

  lemma NextValue<V>(m: map<Key, V>, ks: seq<Key>, start: nat, k: nat, result: seq<V>)
    requires start <= k < |ks| && |result| == k - start && forall x :: x in ks ==> x in m
    requires result <= Values(m, ks[start..])
    ensures result + [m[ks[k]]] <= Values(m, ks[start..])
  {
    assert ks[start..][k - start] == ks[k];
  }

  method GetLatestConfirmedBlocks(confirmed: map<Key, CardanoBlock>, cursor: seq<Key>, maxCnt: int)
    returns (result: seq<CardanoBlock>)
    requires IsCursor(cursor, confirmed.Keys)
    ensures result <= Reverse(Values(confirmed, cursor))
    ensures |result| == if maxCnt > 0 then Min(maxCnt, |cursor|) else |cursor|
  {
    hide Less;
    var all := Reverse(Values(confirmed, cursor));
    var k := |cursor|;
    result := [];
    while k > 0
      invariant 0 <= k <= |cursor| && result == all[..|cursor| - k]
      invariant maxCnt > 0 ==> |result| < maxCnt
    {
      k := k - 1;
      result := result + [confirmed[cursor[k]]];
      if maxCnt > 0 && |result| == maxCnt {
        return;
      }
    }
  }

  /** Blocks in chain order: slots strictly increase. */
  predicate InOrder(chain: seq<CardanoBlock>) { forall i, j :: 0 <= i < j < |chain| ==> chain[i].slot < chain[j].slot }

  /** The bucket holds exactly the blocks of the chain, each under its slot. */
  predicate Holds(confirmed: map<Key, CardanoBlock>, chain: seq<CardanoBlock>)
  {
    InOrder(chain) &&
    (forall i :: 0 <= i < |chain| ==>
       SlotKey(chain[i].slot) in confirmed && confirmed[SlotKey(chain[i].slot)] == chain[i]) &&
    forall k :: k in confirmed ==> exists i :: 0 <= i < |chain| && SlotKey(chain[i].slot) == k
  }

  function SlotKeys(chain: seq<CardanoBlock>): (r: seq<Key>)
    ensures |r| == |chain| && forall i :: 0 <= i < |chain| ==> r[i] == SlotKey(chain[i].slot)
  {
    seq(|chain|, i requires 0 <= i < |chain| => SlotKey(chain[i].slot))
  }

  /** The cursor visits the blocks in chain order. */
  lemma CursorIsChain(confirmed: map<Key, CardanoBlock>, chain: seq<CardanoBlock>, cursor: seq<Key>)
    requires Holds(confirmed, chain) && IsCursor(cursor, confirmed.Keys)
    ensures cursor == SlotKeys(chain) && Values(confirmed, cursor) == chain
  {
    hide Less, SlotKey;
    var ks := SlotKeys(chain);
    forall i, j | 0 <= i < j < |ks| ensures Less(ks[i], ks[j]) { SlotKeyOrder(chain[i].slot, chain[j].slot); }
    forall k | k in confirmed.Keys ensures k in ks {
      var i :| 0 <= i < |chain| && SlotKey(chain[i].slot) == k;
      assert ks[i] == k;
    }
    CursorUnique(cursor, ks, confirmed.Keys);
  }

  /** The part of a chain from a slot on. */
  function FromSlot(chain: seq<CardanoBlock>, slot: U64): seq<CardanoBlock>
  {
    if chain == [] then [] else if chain[0].slot >= slot then chain else FromSlot(chain[1..], slot)
  }

  lemma {:induction false} SeekInChain(chain: seq<CardanoBlock>, slot: U64)
    ensures var i := SeekIndex(SlotKeys(chain), SlotKey(slot)); i <= |chain| && chain[i..] == FromSlot(chain, slot)
    decreases |chain|
  {
    hide Less, SlotKey;
    if chain != [] {
      SlotKeyOrder(chain[0].slot, slot);
      assert SlotKeys(chain)[1..] == SlotKeys(chain[1..]);
      SeekInChain(chain[1..], slot);
    }
  }

  lemma ValuesSlice<V>(m: map<Key, V>, ks: seq<Key>, i: nat)
    requires i <= |ks| && forall k :: k in ks ==> k in m
    ensures Values(m, ks[i..]) == Values(m, ks)[i..]
  {}

  /** The ordered queries return exactly the matching slice of the stored chain. */
  lemma BlockQueries(confirmed: map<Key, CardanoBlock>, chain: seq<CardanoBlock>, cursor: seq<Key>, slot: U64)
    requires Holds(confirmed, chain) && IsCursor(cursor, confirmed.Keys)
    ensures Values(confirmed, cursor[SeekIndex(cursor, SlotKey(slot))..]) == FromSlot(chain, slot)
    ensures Reverse(Values(confirmed, cursor)) == Reverse(chain)
    ensures forall b :: b in FromSlot(chain, slot) <==> b in chain && b.slot >= slot
  {
    assert InOrder(chain);
    hide Less, SlotKey, Holds, IsCursor, InOrder, FromSlot;
    CursorIsChain(confirmed, chain, cursor);
    SeekInChain(chain, slot);
    ValuesSlice(confirmed, cursor, SeekIndex(cursor, SlotKey(slot)));
    FromSlotMeaning(chain, slot);
  }

  lemma {:induction false} FromSlotMeaning(chain: seq<CardanoBlock>, slot: U64)
    requires InOrder(chain)
    ensures forall b :: b in FromSlot(chain, slot) <==> b in chain && b.slot >= slot
    decreases |chain|
  {
    if chain != [] && chain[0].slot < slot {
      FromSlotMeaning(chain[1..], slot);
      assert forall b :: b in chain <==> b == chain[0] || b in chain[1..];
    }
  }

  // ---------- outputs of an address ----------

  /** The comparison of `SortTxInputOutputs`. */
  predicate Before(a: TxInputOutput, b: TxInputOutput)
  {
    if a.output.slot != b.output.slot then a.output.slot < b.output.slot
    else if a.input.hash != b.input.hash then Less(a.input.hash, b.input.hash)
    else a.input.index < b.input.index
  }

  predicate Sorted(s: seq<TxInputOutput>) { forall i, j :: 0 <= i < j < |s| ==> Before(s[i], s[j]) }

  predicate DistinctInputs(s: seq<TxInputOutput>) { forall i, j :: 0 <= i < j < |s| ==> s[i].input != s[j].input }

  lemma BeforeTotal(a: TxInputOutput, b: TxInputOutput)
    ensures a.input != b.input ==> Before(a, b) || Before(b, a)
    ensures !(Before(a, b) && Before(b, a)) && !Before(a, a)
  {
    LessTotal(a.input.hash, b.input.hash);
  }

  /** No element comes before an earlier one. */
  predicate NotDescending(s: seq<TxInputOutput>) { forall i, j :: 0 <= i < j < |s| ==> !Before(s[j], s[i]) }

  lemma NotBeforeTransitive(a: TxInputOutput, b: TxInputOutput, c: TxInputOutput)
    requires !Before(b, a) && !Before(c, b)
    ensures !Before(c, a)
  {
    hide Less;
    LessTotal(a.input.hash, b.input.hash);
    LessTotal(b.input.hash, c.input.hash);
    LessTotal(a.input.hash, c.input.hash);
    if a.output.slot == b.output.slot == c.output.slot {
      if Less(a.input.hash, b.input.hash) && Less(b.input.hash, c.input.hash) {
        LessTransitive(a.input.hash, b.input.hash, c.input.hash);
      }
    }
  }

  /** `SortTxInputOutputs`. The order is total on distinct inputs, so any sorting algorithm gives this result there. */
  method SortTxInputOutputs(s: seq<TxInputOutput>) returns (r: seq<TxInputOutput>)
    ensures NotDescending(r) && multiset(r) == multiset(s)
    ensures DistinctInputs(s) ==> Sorted(r) && forall e :: e in r <==> e in s
    ensures forall i, j :: 0 <= i < j < |r| ==> BySlotHashIndex(r[i], r[j])
  {
    hide Before, Less, BySlotHashIndex;
    r := [];
    for i := 0 to |s|
      invariant NotDescending(r) && multiset(r) == multiset(s[..i])
    {
      var j := |r|;
      while j > 0 && Before(s[i], r[j - 1])
        invariant 0 <= j <= |r|
        invariant forall k :: j <= k < |r| ==> Before(s[i], r[k])
      {
        j := j - 1;
      }
      InsertInOrder(r, j, s[i]);
      assert s[..i + 1] == s[..i] + [s[i]];
      r := r[..j] + [s[i]] + r[j..];
    }
    assert s[..|s|] == s;
    if DistinctInputs(s) {
      StrictlySorted(r, s);
    }
    forall i, j | 0 <= i < j < |r| ensures BySlotHashIndex(r[i], r[j]) { NotBeforeMeaning(r[i], r[j]); }
  }

  /** The order that is documented: by the slot of the output, then by the hash of the input, then by its index. */
  predicate BySlotHashIndex(a: TxInputOutput, b: TxInputOutput)
  {
    && a.output.slot <= b.output.slot
    && (a.output.slot == b.output.slot ==> Less(a.input.hash, b.input.hash) || a.input.hash == b.input.hash)
    && (a.output.slot == b.output.slot && a.input.hash == b.input.hash ==> a.input.index <= b.input.index)
  }

  lemma NotBeforeMeaning(a: TxInputOutput, b: TxInputOutput)
    requires !Before(b, a)
    ensures BySlotHashIndex(a, b)
  {
    hide Less;
    LessTotal(a.input.hash, b.input.hash);
  }

  lemma InsertInOrder(r: seq<TxInputOutput>, j: nat, e: TxInputOutput)
    requires NotDescending(r) && j <= |r| && (j > 0 ==> !Before(e, r[j - 1]))
    requires forall k :: j <= k < |r| ==> Before(e, r[k])
    ensures NotDescending(r[..j] + [e] + r[j..])
    ensures multiset(r[..j] + [e] + r[j..]) == multiset(r) + multiset{e}
  {
    hide Before;
    InsertedElements(r, j, e);
    var longer := r[..j] + [e] + r[j..];
    assert forall k :: 0 <= k < |longer| ==> longer[k] == if k < j then r[k] else if k == j then e else r[k - 1];
    forall k | 0 <= k < j ensures !Before(e, r[k]) {
      if k < j - 1 { NotBeforeTransitive(r[k], r[j - 1], e); }
    }
    forall k | j <= k < |r| ensures !Before(r[k], e) { BeforeTotal(e, r[k]); }
  }

  lemma InsertedElements<T>(r: seq<T>, j: nat, e: T)
    requires j <= |r|
    ensures multiset(r[..j] + [e] + r[j..]) == multiset(r) + multiset{e}
  {
    assert r == r[..j] + r[j..];
  }

  /** Without repeated inputs there are no ties. */
  lemma StrictlySorted(r: seq<TxInputOutput>, s: seq<TxInputOutput>)
    requires NotDescending(r) && multiset(r) == multiset(s) && DistinctInputs(s)
    ensures Sorted(r) && forall e :: e in r <==> e in s
  {
    hide Before;
    forall e ensures e in r <==> e in s { assert e in multiset(r) <==> e in multiset(s); }
    forall i, j | 0 <= i < j < |r| ensures Before(r[i], r[j]) {
      if r[i].input == r[j].input {
        OccursTwice(r, i, j);
        assert r[i] in s && r[j] in s;
        var k :| 0 <= k < |s| && s[k] == r[i];
        var l :| 0 <= l < |s| && s[l] == r[j];
        if k == l {
          OccursOnce(s, k);
        }
      }
      BeforeTotal(r[i], r[j]);
    }
  }

  lemma OccursTwice<T>(r: seq<T>, i: nat, j: nat)
    requires i < j < |r|
    ensures r[i] == r[j] ==> multiset(r)[r[i]] >= 2
  {
    assert r == r[..i] + [r[i]] + r[i + 1..j] + [r[j]] + r[j + 1..];
  }

  lemma OccursOnce(s: seq<TxInputOutput>, k: nat)
    requires DistinctInputs(s) && k < |s|
    ensures multiset(s)[s[k]] == 1
  {
    assert s == s[..k] + [s[k]] + s[k + 1..];
    assert s[k] !in s[..k] && s[k] !in s[k + 1..];
  }

  /** The entry is in the bucket, belongs to the address, and is unused if only those are asked for. */
  predicate Matches(m: Bucket, address: string, onlyNotUsed: bool, e: TxInputOutput)
  {
    InputKey(e.input) in m && m[InputKey(e.input)] == e.output
    && e.output.address == address && !(onlyNotUsed && e.output.isUsed)
  }

  /** The answer to a query is determined by the bucket. */
  ghost predicate IsAnswer(m: Bucket, address: string, onlyNotUsed: bool, r: seq<TxInputOutput>)
  {
    Sorted(r) && forall e :: e in r <==> Matches(m, address, onlyNotUsed, e)
  }

  predicate InputKeysOnly(m: Bucket) { forall k :: k in m ==> |k| == HASH_SIZE + 4 }

  /** An entry asked for has a key that is not the key of an input. */
  predicate HasBadKey(m: Bucket, address: string, onlyNotUsed: bool)
  {
    exists k :: k in m && Asked(m, k, address, onlyNotUsed) && |k| != HASH_SIZE + 4
  }

  /** A reply to a query: an error exactly when an entry asked for has a bad key, and otherwise the answer. */
  ghost predicate IsReply(m: Bucket, address: string, onlyNotUsed: bool, r: Option<seq<TxInputOutput>>)
  {
    (r.None? <==> HasBadKey(m, address, onlyNotUsed)) && (r.Some? ==> IsAnswer(m, address, onlyNotUsed, r.value))
  }

  /** The result holds exactly the matching entries among the first `i` keys. */
  ghost predicate Visited(m: Bucket, cursor: seq<Key>, i: nat, address: string, onlyNotUsed: bool,
                          result: seq<TxInputOutput>)
  {
    && IsCursor(cursor, m.Keys) && i <= |cursor| && DistinctInputs(result)
    && (forall e :: e in result <==> Matches(m, address, onlyNotUsed, e) && InputKey(e.input) in cursor[..i])
    && forall k :: k in cursor[..i] && Asked(m, k, address, onlyNotUsed) ==> |k| == HASH_SIZE + 4
  }

  predicate Asked(m: Bucket, k: Key, address: string, onlyNotUsed: bool)
  {
    k in m && m[k].address == address && !(onlyNotUsed && m[k].isUsed)
  }

  /** An entry that is not asked for. */
  lemma SkipEntry(m: Bucket, cursor: seq<Key>, i: nat, address: string, onlyNotUsed: bool, result: seq<TxInputOutput>)
    requires Visited(m, cursor, i, address, onlyNotUsed, result) && i < |cursor|
    requires !Asked(m, cursor[i], address, onlyNotUsed)
    ensures Visited(m, cursor, i + 1, address, onlyNotUsed, result)
  {
    hide Less, InputKey, IsCursor;
    assert cursor[..i + 1] == cursor[..i] + [cursor[i]];
  }

  /** An entry that is asked for, under the key of an input. */
  lemma TakeEntry(m: Bucket, cursor: seq<Key>, i: nat, address: string, onlyNotUsed: bool, result: seq<TxInputOutput>)
    requires Visited(m, cursor, i, address, onlyNotUsed, result) && i < |cursor|
    requires Asked(m, cursor[i], address, onlyNotUsed) && InputOfKey(cursor[i]).Some?
    ensures var e := TxInputOutput(InputOfKey(cursor[i]).value, m[cursor[i]]);
            Visited(m, cursor, i + 1, address, onlyNotUsed, result + [e])
  {
    hide Less, InputKey, InputOfKey;
    var k := cursor[i];
    var e := TxInputOutput(InputOfKey(k).value, m[k]);
    assert cursor[..i + 1] == cursor[..i] + [k];
    DecodesInput(k);
    NotYetVisited(cursor, i);
    forall d | Matches(m, address, onlyNotUsed, d) && InputKey(d.input) == k ensures d == e {
      InputKeyInverse(d.input);
    }
    forall j | 0 <= j < |result| ensures result[j].input != e.input { assert result[j] in result; }
  }

  method GetAllTxOutputs(m: Bucket, cursor: seq<Key>, address: string, onlyNotUsed: bool)
    returns (r: Option<seq<TxInputOutput>>)
    requires IsCursor(cursor, m.Keys)
    ensures IsReply(m, address, onlyNotUsed, r)
    ensures r.Some? ==> forall i, j :: 0 <= i < j < |r.value| ==> BySlotHashIndex(r.value[i], r.value[j])
  {
    hide Less, InputKey, InputOfKey, Before, Visited, IsCursor, BySlotHashIndex;
    var result: seq<TxInputOutput> := [];
    assert Visited(m, cursor, 0, address, onlyNotUsed, []) by { NoneVisited(m, cursor, address, onlyNotUsed); }
    CursorKeys(cursor, m.Keys);
    for i := 0 to |cursor|
      invariant Visited(m, cursor, i, address, onlyNotUsed, result)
    {
      var k := cursor[i];
      assert k in cursor;
      var output := m[k];
      if output.address != address || (onlyNotUsed && output.isUsed) {
        SkipEntry(m, cursor, i, address, onlyNotUsed, result);
        continue;
      }
      var input := InputOfKey(k);
      DecodesInput(k);
      if input.None? {
        return None;
      }
      TakeEntry(m, cursor, i, address, onlyNotUsed, result);
      result := result + [TxInputOutput(input.value, output)];
    }
    AllVisited(m, cursor, address, onlyNotUsed, result);
    var sorted := SortTxInputOutputs(result);
    return Some(sorted);
  }

  lemma NoneVisited(m: Bucket, cursor: seq<Key>, address: string, onlyNotUsed: bool)
    requires IsCursor(cursor, m.Keys)
    ensures Visited(m, cursor, 0, address, onlyNotUsed, [])
  {}

  lemma AllVisited(m: Bucket, cursor: seq<Key>, address: string, onlyNotUsed: bool, result: seq<TxInputOutput>)
    requires Visited(m, cursor, |cursor|, address, onlyNotUsed, result)
    ensures DistinctInputs(result) && !HasBadKey(m, address, onlyNotUsed)
    ensures forall e :: e in result <==> Matches(m, address, onlyNotUsed, e)
  {
    hide Less, InputKey;
    assert cursor[..|cursor|] == cursor;
  }

  lemma DecodesInput(k: Key)
    ensures InputOfKey(k).Some? <==> |k| == HASH_SIZE + 4
    ensures InputOfKey(k).Some? ==> InputKey(InputOfKey(k).value) == k
  {
    if |k| == HASH_SIZE + 4 {
      KeyOfDecoded(k);
    }
  }

  lemma NotYetVisited(cursor: seq<Key>, i: nat)
    requires Ascending(cursor) && i < |cursor|
    ensures cursor[i] !in cursor[..i]
  {
    hide Less;
    LessTotal(cursor[i], cursor[i]);
  }

  lemma {:induction false} SortedUnique(a: seq<TxInputOutput>, b: seq<TxInputOutput>)
    requires Sorted(a) && Sorted(b) && forall e :: e in a <==> e in b
    ensures a == b
    decreases |a|
  {
    hide Before;
    var any := TxInputOutput(TxInput(ZeroHash(), 0), ZeroOutput);
    var ea := if a == [] then any else a[0];
    var eb := if b == [] then any else b[0];
    assert a == [] || ea in a;
    assert b == [] || eb in b;
    if a == [] || b == [] {
    } else {
      assert a[0] in b && b[0] in a;
      var i :| 0 <= i < |b| && b[i] == a[0];
      var j :| 0 <= j < |a| && a[j] == b[0];
      BeforeTotal(a[0], b[0]);
      SortedTail(a);
      SortedTail(b);
      SortedUnique(a[1..], b[1..]);
      assert a == [a[0]] + a[1..] && b == [b[0]] + b[1..];
    }
  }

  lemma SortedTail(a: seq<TxInputOutput>)
    requires Sorted(a) && a != []
    ensures Sorted(a[1..]) && forall e :: e in a[1..] <==> e in a && e != a[0]
  {
    hide Before;
    BeforeTotal(a[0], a[0]);
    assert forall i :: 1 <= i < |a| ==> a[1..][i - 1] == a[i];
  }
}
