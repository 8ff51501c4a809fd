/** A configuration partition: keys and values in packed arrays, which are saved with a checksum. */
module ConfigStore {
  import opened Bytes
  import Crc32
  import Crc32Burst
  import Crc32Ieee

  const MAX_NUM_KV := 50
  const MAX_KEY_LEN := 32
  const MAX_VALUE_LEN := 50
  const CONFIG_VERSION := 0

  datatype ConfigDataType = UINT32 | INT32 | FLOAT | STR | BYTES | ARRAY

  /** `keyBuf` is the text before the terminator; there is room for one character less than `MAX_KEY_LEN`. */
  datatype ConfigKey = ConfigKey(keyBuf: string, keyLen: nat, valueType: ConfigDataType)

  datatype Entry = Entry(key: ConfigKey, value: seq<uint8>)

  /** What the CBOR library says of a value: its type, if it is a valid value of a type that can be stored. */
  type Cbor = seq<uint8> -> Option<ConfigDataType>

  /** A value stays valid when other bytes follow it. */
  ghost predicate PrefixStable(cbor: Cbor) {
    forall v: seq<uint8>, tail: seq<uint8> {:trigger v + tail} :: cbor(v).Some? ==> cbor(v + tail).Some?
  }

  predicate IsKeyChar(c: char) {
    '0' <= c <= '9' || 'a' <= c <= 'z' || 'A' <= c <= 'Z' || c == '_'
  }

  /** Callers pass a terminated string and its length. */
  predicate IsText(key: string) {
    '\0' !in key
  }

  predicate KeyValid(key: string) {
    forall c <- key :: IsKeyChar(c)
  }

  /** What is left of a key in its buffer. */
  function Truncated(key: string): string {
    if |key| < MAX_KEY_LEN then key else key[..MAX_KEY_LEN - 1]
  }

  // ----- the partition as a list of entries -----

  predicate Matches(k: ConfigKey, key: string) {
    k.keyLen == |key| && |key| <= |k.keyBuf| && k.keyBuf[..|key|] == key
  }

  function Find(entries: seq<Entry>, key: string, i: nat): (n: Option<nat>)
    requires i <= |entries|
    ensures n.Some? ==> i <= n.value < |entries| && Matches(entries[n.value].key, key)
    decreases |entries| - i
  {
    if i == |entries| then None
    else if Matches(entries[i].key, key) then Some(i)
    else Find(entries, key, i + 1)
  }

  predicate EntryOk(e: Entry) {
    && |e.value| == MAX_VALUE_LEN && e.key.keyLen <= MAX_KEY_LEN
    && |e.key.keyBuf| == (if e.key.keyLen < MAX_KEY_LEN then e.key.keyLen else MAX_KEY_LEN - 1)
  }

  /** Keys that fit their buffer are stored once. */
  predicate WellKept(entries: seq<Entry>) {
    && |entries| <= MAX_NUM_KV
    && (forall i :: 0 <= i < |entries| ==> EntryOk(entries[i]))
    && (forall i, j :: 0 <= i < j < |entries| && Fits(entries[i]) && Fits(entries[j]) ==>
          entries[i].key.keyBuf != entries[j].key.keyBuf)
  }

  predicate Fits(e: Entry) {
    e.key.keyLen < MAX_KEY_LEN
  }

  lemma {:induction false} FindIs(entries: seq<Entry>, key: string, i: nat)
    requires i <= |entries|
    ensures Find(entries, key, i) == None ==> forall k :: i <= k < |entries| ==> !Matches(entries[k].key, key)
    decreases |entries| - i
  {
    if i < |entries| && !Matches(entries[i].key, key) {
      FindIs(entries, key, i + 1);
    }
  }

  function SetType(cbor: Cbor, key: string, value: seq<uint8>): (t: Option<ConfigDataType>)
    ensures t.Some? ==> |key| <= MAX_KEY_LEN && 0 < |value| <= MAX_VALUE_LEN
  {
    if |key| > MAX_KEY_LEN || |value| > MAX_VALUE_LEN || value == [] then None else cbor(value)
  }

  /** The list after a set, if the set is accepted; `slot` is what lies in the value slot of a new entry. */
  function SetEntry(entries: seq<Entry>, cbor: Cbor, key: string, value: seq<uint8>, slot: seq<uint8>): Option<seq<Entry>>
    requires forall i :: 0 <= i < |entries| ==> EntryOk(entries[i])
    requires |slot| == MAX_VALUE_LEN
  {
    var t := SetType(cbor, key, value);
    if t.None? then None
    else
      match Find(entries, key, 0)
      case Some(i) =>
        assert EntryOk(entries[i]);
        Some(entries[i := Entry(entries[i].key.(valueType := t.value, keyLen := |key|), Splice(entries[i].value, 0, value))])
      case None =>
        if !KeyValid(key) || |entries| >= MAX_NUM_KV then None
        else Some(entries + [Entry(ConfigKey(Truncated(key), |key|, t.value), Splice(slot, 0, value))])
  }

  function RemoveAt(entries: seq<Entry>, i: nat): seq<Entry>
    requires i < |entries|
  {
    entries[..i] + entries[i + 1..]
  }

  // ----- the list as a map -----

  ghost function View(entries: seq<Entry>): map<string, seq<uint8>>
    requires WellKept(entries)
  {
    map i | 0 <= i < |entries| && Fits(entries[i]) :: entries[i].key.keyBuf := entries[i].value
  }

  lemma {:induction false} ViewAt(entries: seq<Entry>, i: nat)
    requires WellKept(entries) && i < |entries| && Fits(entries[i])
    ensures entries[i].key.keyBuf in View(entries) && View(entries)[entries[i].key.keyBuf] == entries[i].value
  {
  }

  lemma {:induction false} MatchesIs(e: Entry, key: string)
    requires EntryOk(e) && |key| < MAX_KEY_LEN
    ensures Matches(e.key, key) <==> Fits(e) && e.key.keyBuf == key
  {
  }

  /** A key that fits its buffer is found exactly when the map has it. */
  lemma {:induction false} FindIsView(entries: seq<Entry>, key: string)
    requires WellKept(entries) && |key| < MAX_KEY_LEN
    ensures match Find(entries, key, 0)
      case None => key !in View(entries)
      case Some(i) => i < |entries| && key in View(entries) && View(entries)[key] == entries[i].value
  {
    match Find(entries, key, 0) {
      case None =>
        FindIs(entries, key, 0);
        forall i | 0 <= i < |entries| && Fits(entries[i])
          ensures entries[i].key.keyBuf != key
        {
          MatchesIs(entries[i], key);
        }
      case Some(i) =>
        MatchesIs(entries[i], key);
        ViewAt(entries, i);
    }
  }

  lemma {:induction false} LongKeyNotFound(entries: seq<Entry>, key: string)
    requires WellKept(entries) && |key| >= MAX_KEY_LEN
    ensures Find(entries, key, 0) == None
  {
    FindIs(entries, key, 0);
  }

  /** A set that is accepted changes the map at its key only; the new value starts with the bytes set. */
  lemma {:induction false} SetIsUpdate(entries: seq<Entry>, cbor: Cbor, key: string, value: seq<uint8>, slot: seq<uint8>)
    requires WellKept(entries) && |slot| == MAX_VALUE_LEN && |key| < MAX_KEY_LEN
    requires SetEntry(entries, cbor, key, value, slot).Some?
    ensures var after := SetEntry(entries, cbor, key, value, slot).value;
      && WellKept(after) && key in View(after) && value <= View(after)[key]
      && View(after) == View(entries)[key := View(after)[key]]
  {
    var after := SetEntry(entries, cbor, key, value, slot).value;
    FindIs(entries, key, 0);
    var n := match Find(entries, key, 0) case None => |entries| case Some(i) => i;
    assert Fits(after[n]) && after[n].key.keyBuf == key && value <= after[n].value;
    assert WellKept(after);
    assert View(after)[key] == after[n].value;
    ViewChanges(entries, after, n);
  }

  /** `after` is `before` but for entry `n`, which may be new. */
  ghost predicate ChangedAt(before: seq<Entry>, after: seq<Entry>, n: nat) {
    && WellKept(before) && WellKept(after) && n < |after| && n <= |before|
    && |after| == (if n < |before| then |before| else n + 1)
    && (forall i :: 0 <= i < |before| && i != n ==> after[i] == before[i])
    && (n < |before| ==> Fits(before[n]) && before[n].key.keyBuf == after[n].key.keyBuf)
    && Fits(after[n])
  }

  lemma {:induction false} ViewKeeps(before: seq<Entry>, after: seq<Entry>, n: nat, k: string)
    requires ChangedAt(before, after, n) && k in View(before) && k != after[n].key.keyBuf
    ensures k in View(after) && View(after)[k] == View(before)[k]
  {
    var i :| 0 <= i < |before| && Fits(before[i]) && before[i].key.keyBuf == k;
    ViewAt(before, i);
    ViewAt(after, i);
  }

  lemma {:induction false} ViewAddsOne(before: seq<Entry>, after: seq<Entry>, n: nat, k: string)
    requires ChangedAt(before, after, n) && k in View(after)
    ensures k == after[n].key.keyBuf || k in View(before)
  {
    var i :| 0 <= i < |after| && Fits(after[i]) && after[i].key.keyBuf == k;
    if i != n {
      ViewAt(before, i);
    }
  }

  lemma {:induction false} ViewChanges(before: seq<Entry>, after: seq<Entry>, n: nat)
    requires ChangedAt(before, after, n)
    ensures View(after) == View(before)[after[n].key.keyBuf := after[n].value]
  {
    var was, now, key := View(before), View(after), after[n].key.keyBuf;
    ViewAt(after, n);
    forall k | k in was && k != key
      ensures k in now && now[k] == was[k]
    {
      ViewKeeps(before, after, n, k);
    }
    forall k | k in now
      ensures k == key || k in was
    {
      ViewAddsOne(before, after, n, k);
    }
  }

  lemma {:induction false} RemoveKeepsKept(entries: seq<Entry>, i: nat)
    requires WellKept(entries) && i < |entries|
    ensures WellKept(RemoveAt(entries, i))
    ensures forall j :: 0 <= j < |entries| - 1 ==> RemoveAt(entries, i)[j] == entries[if j < i then j else j + 1]
  {
  }

  lemma {:induction false} OthersStay(entries: seq<Entry>, i: nat, j: nat)
    requires WellKept(entries) && i < |entries| && j < |entries| && i != j && Fits(entries[j])
    ensures WellKept(RemoveAt(entries, i)) && var k := entries[j].key.keyBuf;
      k in View(RemoveAt(entries, i)) && View(RemoveAt(entries, i))[k] == entries[j].value
  {
    RemoveKeepsKept(entries, i);
    ViewAt(RemoveAt(entries, i), if j < i then j else j - 1);
  }

  lemma {:induction false} NothingNew(entries: seq<Entry>, i: nat, k: string)
    requires WellKept(entries) && i < |entries| && Fits(entries[i])
    requires WellKept(RemoveAt(entries, i)) && k in View(RemoveAt(entries, i))
    ensures exists j :: 0 <= j < |entries| && j != i && Fits(entries[j]) && entries[j].key.keyBuf == k
  {
    RemoveKeepsKept(entries, i);
    var after := RemoveAt(entries, i);
    var at :| 0 <= at < |after| && Fits(after[at]) && after[at].key.keyBuf == k;
    assert after[at] == entries[if at < i then at else at + 1];
  }

  /** A remove takes its key out of the map, and nothing else. */
  lemma {:induction false} RemoveIsRemoval(entries: seq<Entry>, i: nat)
    requires WellKept(entries) && i < |entries| && Fits(entries[i])
    ensures WellKept(RemoveAt(entries, i))
    ensures View(RemoveAt(entries, i)) == View(entries) - {entries[i].key.keyBuf}
  {
    RemoveKeepsKept(entries, i);
    var after, m := View(RemoveAt(entries, i)), View(entries) - {entries[i].key.keyBuf};
    forall k | k in m
      ensures k in after && after[k] == m[k]
    {
      var j :| 0 <= j < |entries| && Fits(entries[j]) && entries[j].key.keyBuf == k;
      OthersStay(entries, i, j);
      ViewAt(entries, j);
    }
    forall k | k in after
      ensures k in m
    {
      NothingNew(entries, i, k);
    }
  }

  /** A key too long for its buffer can be set, again and again, but no get or remove finds it. */
  lemma {:induction false} LongKeyIsLost(entries: seq<Entry>, cbor: Cbor, key: string, value: seq<uint8>, slot: seq<uint8>)
    requires WellKept(entries) && |entries| < MAX_NUM_KV && |key| == MAX_KEY_LEN && KeyValid(key)
    requires SetType(cbor, key, value).Some? && |slot| == MAX_VALUE_LEN
    ensures var after := SetEntry(entries, cbor, key, value, slot);
      after.Some? && WellKept(after.value) && |after.value| == |entries| + 1 && Find(after.value, key, 0) == None
  {
    LongKeyNotFound(entries, key);
    var after := SetEntry(entries, cbor, key, value, slot).value;
    LongKeyNotFound(after, key);
  }

  // ----- storage -----

  /** What is written to flash: the checksum covers all that follows it. */
  datatype Body = Body(version: nat, numKeys: nat, keys: seq<ConfigKey>, values: seq<seq<uint8>>)
  datatype Image = Image(crc: Crc32.Word, body: Body)

  /** How a body lies in memory. */
  type Layout = Body -> seq<byte>

  predicate CrcHolds(image: Image, layout: Layout) {
    image.crc == Crc32.Crc(layout(image.body))
  }

  predicate BodyShape(b: Body) {
    |b.keys| == |b.values| == MAX_NUM_KV && forall i :: 0 <= i < MAX_NUM_KV ==> |b.values[i]| == MAX_VALUE_LEN
  }

  function BodyEntries(b: Body): seq<Entry>
    requires BodyShape(b) && b.numKeys <= MAX_NUM_KV
  {
    seq(b.numKeys, i requires 0 <= i < b.numKeys => Entry(b.keys[i], b.values[i]))
  }

  predicate BodyOk(b: Body) {
    BodyShape(b) && b.numKeys <= MAX_NUM_KV && WellKept(BodyEntries(b))
  }

  /** An image damaged within four neighboring bytes of its body is not loaded. */
  lemma {:induction false} DamagedImageIsRejected(layout: Layout, image: Image, damaged: Body,
                                                  head: seq<byte>, a: seq<byte>, b: seq<byte>, tail: seq<byte>)
    requires CrcHolds(image, layout) && |a| == |b| == 4 && a != b
    requires layout(image.body) == head + a + tail && layout(damaged) == head + b + tail
    ensures !CrcHolds(Image(image.crc, damaged), layout)
  {
    Crc32Burst.DamageIsCaught(head, a, b, tail);
  }

  class Partition {
    const keys: array<ConfigKey>
    const values: array<seq<uint8>>
    const cbor: Cbor
    const layout: Layout
    var version: nat
    var numKeys: nat
    var needsCommit: bool

    ghost predicate Valid()
      reads this, keys, values
    {
      && keys.Length == values.Length == MAX_NUM_KV && numKeys <= MAX_NUM_KV
      && (forall i :: 0 <= i < MAX_NUM_KV ==> |values[i]| == MAX_VALUE_LEN)
      && WellKept(Entries())
    }

    ghost function Entries(): (entries: seq<Entry>)
      reads this, keys, values
      requires numKeys <= keys.Length && numKeys <= values.Length
      ensures |entries| == numKeys
      ensures forall i :: 0 <= i < numKeys ==> entries[i] == Entry(keys[i], values[i])
    {
      seq(numKeys, i requires 0 <= i < numKeys <= keys.Length && numKeys <= values.Length reads this, keys, values =>
        Entry(keys[i], values[i]))
    }

    constructor (keys: array<ConfigKey>, values: array<seq<uint8>>, cbor: Cbor, layout: Layout)
      requires keys.Length == values.Length == MAX_NUM_KV
      requires forall i :: 0 <= i < MAX_NUM_KV ==> |values[i]| == MAX_VALUE_LEN
      ensures Valid() && Entries() == [] && this.keys == keys && this.values == values
      ensures this.cbor == cbor && this.layout == layout
    {
      this.keys, this.values, this.cbor, this.layout := keys, values, cbor, layout;
      version, numKeys, needsCommit := CONFIG_VERSION, 0, false;
    }

    method FindKeyIdx(key: string) returns (found: bool, idx: nat)
      requires Valid()
      ensures Find(Entries(), key, 0) == if found then Some(idx) else None
    {
      for i := 0 to numKeys
        invariant Find(Entries(), key, 0) == Find(Entries(), key, i)
      {
        assert Entries()[i].key == keys[i];
        if Matches(keys[i], key) {
          return true, i;
        }
      }
      return false, 0;
    }

    method Overwrite(idx: nat, keyLen: nat, valueType: ConfigDataType, value: seq<uint8>)
      requires Valid() && idx < numKeys && keyLen == keys[idx].keyLen && |value| <= MAX_VALUE_LEN
      modifies keys, values
      ensures Valid()
      ensures |old(Entries())[idx].value| == MAX_VALUE_LEN
      ensures var e := old(Entries())[idx];
        Entries() == old(Entries())[idx := Entry(e.key.(valueType := valueType, keyLen := keyLen), Splice(e.value, 0, value))]
    {
      ghost var before := Entries();
      assert EntryOk(before[idx]);
      keys[idx] := keys[idx].(valueType := valueType, keyLen := keyLen);
      values[idx] := Splice(values[idx], 0, value);
      forall i | 0 <= i < numKeys
        ensures Entries()[i].key.keyBuf == before[i].key.keyBuf && Entries()[i].key.keyLen == before[i].key.keyLen
      {
      }
    }

    method AppendEntry(key: ConfigKey, value: seq<uint8>) returns (ghost slot: seq<uint8>)
      requires Valid() && numKeys < MAX_NUM_KV && |value| <= MAX_VALUE_LEN
      requires forall slot :: |slot| == MAX_VALUE_LEN ==> WellKept(Entries() + [Entry(key, Splice(slot, 0, value))])
      modifies this`numKeys, keys, values
      ensures Valid() && |slot| == MAX_VALUE_LEN && Entries() == old(Entries()) + [Entry(key, Splice(slot, 0, value))]
    {
      slot := values[numKeys];
      ghost var after := Entries() + [Entry(key, Splice(slot, 0, value))];
      keys[numKeys] := key;
      values[numKeys] := Splice(values[numKeys], 0, value);
      numKeys := numKeys + 1;
      assert Entries() == after;
    }

    method SetConfigCbor(key: string, value: seq<uint8>) returns (ok: bool)
      requires Valid() && IsText(key)
      modifies this, keys, values
      ensures Valid()
      ensures exists slot | |slot| == MAX_VALUE_LEN ::
                var after := SetEntry(old(Entries()), cbor, key, value, slot);
                ok == after.Some? && Entries() == (if ok then after.value else old(Entries()))
      ensures needsCommit == (ok || old(needsCommit))
    {
      ghost var before := Entries();
      ghost var slot := values[0];
      var t := SetType(cbor, key, value);
      if t.None? {
        assert SetEntry(before, cbor, key, value, slot).None?;
        return false;
      }
      var found, idx := FindKeyIdx(key);
      if !found {
        if !KeyValid(key) || numKeys >= MAX_NUM_KV {
          assert SetEntry(before, cbor, key, value, slot).None?;
          return false;
        }
        NewKeyKeepsKept(before, cbor, key, value);
        slot := AppendEntry(ConfigKey(Truncated(key), |key|, t.value), value);
      } else {
        Overwrite(idx, |key|, t.value, value);
      }
      needsCommit := true;
      ok := true;
      assert Entries() == SetEntry(before, cbor, key, value, slot).value;
    }

    /** `room` is the size of the caller's buffer. */
    method GetConfigCbor(key: string, room: nat) returns (ok: bool, value: seq<uint8>)
      requires Valid() && IsText(key)
      ensures ok <==> (|key| <= MAX_KEY_LEN && room >= MAX_VALUE_LEN && Find(Entries(), key, 0).Some?
                       && cbor(Entries()[Find(Entries(), key, 0).value].value).Some?)
      ensures ok ==> value == Entries()[Find(Entries(), key, 0).value].value
    {
      ok, value := false, [];
      if |key| <= MAX_KEY_LEN {
        var found, idx := FindKeyIdx(key);
        if found && cbor(values[idx]).Some? && room >= MAX_VALUE_LEN {
          ok, value := true, values[idx];
        }
      }
    }

    /** The entries behind the removed one move up. */
    method RemoveKey(key: string) returns (ok: bool)
      requires Valid() && IsText(key)
      modifies this, keys, values
      ensures Valid()
      ensures ok <==> Find(old(Entries()), key, 0).Some?
      ensures Entries() == if ok then RemoveAt(old(Entries()), Find(old(Entries()), key, 0).value) else old(Entries())
      ensures needsCommit == (ok || old(needsCommit))
    {
      var found, idx := FindKeyIdx(key);
      if !found {
        return false;
      }
      ghost var before := Entries();
      RemoveKeepsKept(before, idx);
      for i := idx to numKeys - 1
        invariant numKeys == old(numKeys)
        invariant forall k :: 0 <= k < MAX_NUM_KV ==> |values[k]| == MAX_VALUE_LEN
        invariant forall k :: 0 <= k < numKeys && (k < idx || k >= i) ==> keys[k] == before[k].key && values[k] == before[k].value
        invariant forall k :: idx <= k < i ==> keys[k] == before[k + 1].key && values[k] == before[k + 1].value
      {
        keys[i] := keys[i + 1];
        values[i] := values[i + 1];
      }
      numKeys := numKeys - 1;
      needsCommit := true;
      ok := true;
      assert Entries() == RemoveAt(before, idx);
    }

    method ClearPartition()
      requires Valid()
      modifies this, keys, values
      ensures Valid() && Entries() == [] && needsCommit
    {
      for i := 0 to MAX_NUM_KV
        invariant forall k :: 0 <= k < MAX_NUM_KV ==> |values[k]| == MAX_VALUE_LEN
      {
        keys[i] := ConfigKey([], 0, UINT32);
        values[i] := seq(MAX_VALUE_LEN, k => 0);
      }
      numKeys, version, needsCommit := 0, CONFIG_VERSION, true;
    }

    /** `written` says whether the flash takes the image. */
    method SaveConfig(written: bool) returns (ok: bool, image: Image)
      requires Valid()
      modifies this`needsCommit
      ensures ok == written && needsCommit == (!ok && old(needsCommit))
      ensures CrcHolds(image, layout) && BodyOk(image.body) && BodyEntries(image.body) == Entries()
    {
      var body := Body(version, numKeys, keys[..], values[..]);
      var crc := Crc32Ieee.Crc32Ieee(layout(body));
      image := Image(crc, body);
      if written {
        needsCommit := false;
      }
      ok := written;
      assert BodyEntries(body) == Entries();
    }

    /** What the flash gives back, if it can be read; an image whose checksum holds was saved from a partition. */
    method Load(image: Option<Image>)
      requires Valid()
      requires image.Some? ==> BodyShape(image.value.body)
      requires image.Some? && CrcHolds(image.value, layout) ==> BodyOk(image.value.body)
      modifies this, keys, values
      ensures Valid()
      ensures Entries() == if image.Some? && CrcHolds(image.value, layout) then BodyEntries(image.value.body) else []
    {
      var ok := false;
      if image.Some? {
        var body := image.value.body;
        for i := 0 to MAX_NUM_KV
          invariant forall k :: 0 <= k < i ==> keys[k] == body.keys[k] && values[k] == body.values[k]
          invariant forall k :: i <= k < MAX_NUM_KV ==> |values[k]| == MAX_VALUE_LEN
        {
          keys[i] := body.keys[i];
          values[i] := body.values[i];
        }
        version := body.version;
        var crc := Crc32Ieee.Crc32Ieee(layout(body));
        ok := crc == image.value.crc;
      }
      if ok {
        numKeys := image.value.body.numKeys;
        assert Entries() == BodyEntries(image.value.body);
      } else {
        numKeys, version := 0, CONFIG_VERSION;
      }
    }
  }

  lemma {:induction false} NewKeyKeepsKept(entries: seq<Entry>, cbor: Cbor, key: string, value: seq<uint8>)
    requires WellKept(entries) && |entries| < MAX_NUM_KV && Find(entries, key, 0) == None && KeyValid(key)
    requires SetType(cbor, key, value).Some?
    ensures forall slot | |slot| == MAX_VALUE_LEN ::
              WellKept(entries + [Entry(ConfigKey(Truncated(key), |key|, SetType(cbor, key, value).value), Splice(slot, 0, value))])
  {
    forall slot: seq<uint8> | |slot| == MAX_VALUE_LEN
      ensures WellKept(entries + [Entry(ConfigKey(Truncated(key), |key|, SetType(cbor, key, value).value), Splice(slot, 0, value))])
    {
      SetKeepsKept(entries, cbor, key, value, slot);
    }
  }

  lemma {:induction false} SetKeepsKept(entries: seq<Entry>, cbor: Cbor, key: string, value: seq<uint8>, slot: seq<uint8>)
    requires WellKept(entries) && |slot| == MAX_VALUE_LEN && SetEntry(entries, cbor, key, value, slot).Some?
    ensures WellKept(SetEntry(entries, cbor, key, value, slot).value)
  {
    FindIs(entries, key, 0);
    if |key| < MAX_KEY_LEN {
      SetIsUpdate(entries, cbor, key, value, slot);
    } else {
      LongKeyNotFound(entries, key);
    }
  }

  /** What was set can be got, for every key that fits its buffer. */
  lemma {:induction false} GetAfterSet(entries: seq<Entry>, cbor: Cbor, key: string, value: seq<uint8>, slot: seq<uint8>)
    requires WellKept(entries) && |slot| == MAX_VALUE_LEN && |key| < MAX_KEY_LEN && PrefixStable(cbor)
    requires SetEntry(entries, cbor, key, value, slot).Some?
    ensures var after := SetEntry(entries, cbor, key, value, slot).value;
      Find(after, key, 0).Some? && var got := after[Find(after, key, 0).value].value; cbor(got).Some? && value <= got
  {
    var after := SetEntry(entries, cbor, key, value, slot).value;
    SetIsUpdate(entries, cbor, key, value, slot);
    FindIsView(after, key);
    var got := View(after)[key];
    assert got == value + got[|value|..];
  }
}
