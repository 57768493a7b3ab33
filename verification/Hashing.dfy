// The incremental hasher, and the digest methods that feed it field by field.
// `rest` is always the part of the stream still to be fed.
module Hashing {
  import opened ByteStrings
  import opened Versioning
  import opened CanonicalViews
  import opened Streams

  /** Bytes fed so far, in order. */
  class Hasher {
    var fed: Bytes

    constructor ()
      ensures fed == []
    {
      fed := [];
    }

    method Update(bytes: Bytes, ghost rest: Bytes)
      modifies this
      ensures fed == old(fed) + bytes
      ensures fed + rest == old(fed) + (bytes + rest)
    {
      fed := fed + bytes;
      assert old(fed) + bytes + rest == old(fed) + (bytes + rest);
    }

    /** Feed a length prefix, then the bytes. */
    method UpdateBytes(bytes: Bytes, ghost rest: Bytes)
      modifies this
      ensures fed + rest == old(fed) + FrameThen(bytes, rest)
    {
      Update(LittleEndian(|bytes|, 8), bytes + rest);
      Update(bytes, rest);
    }

    method UpdateKey(key: RecordKey, ghost rest: Bytes)
      modifies this
      ensures fed + rest == old(fed) + KeyThen(key, rest)
    {
      Update([KindTag(key)], FrameThen(Text(key), rest));
      UpdateBytes(Text(key), rest);
    }

    method UpdateFamily(f: FamilyIdentity, ghost rest: Bytes)
      modifies this
      ensures fed + rest == old(fed) + FamilyThen(f, rest)
    {
      UpdateBytes(f.family, FrameThen(f.schemaHash, FrameThen(f.table, rest)));
      UpdateBytes(f.schemaHash, FrameThen(f.table, rest));
      UpdateBytes(f.table, rest);
    }

    method UpdatePayload(payload: Payload, ghost rest: Bytes)
      modifies this
      ensures fed + rest == old(fed) + PayloadThen(payload, rest)
    {
      match payload
      case Record(bytes) =>
        Update([1], FrameThen(bytes, rest));
        UpdateBytes(bytes, rest);
      case Tombstone =>
        Update([0], rest);
    }

    method UpdateOptionalKey(key: Option<RecordKey>, ghost rest: Bytes)
      modifies this
      ensures fed + rest == old(fed) + OptionalKeyThen(key, rest)
    {
      match key
      case Some(k) =>
        Update([1], KeyThen(k, rest));
        UpdateKey(k, rest);
      case None =>
        Update([0], rest);
    }

    method UpdateOptionalDigest(digest: Option<Digest>, ghost rest: Bytes)
      modifies this
      ensures fed + rest == old(fed) + OptionalDigestThen(digest, rest)
    {
      match digest
      case Some(d) =>
        Update([1], FrameThen(d, rest));
        UpdateBytes(d, rest);
      case None =>
        Update([0], rest);
    }

    method UpdateOperation(op: LogOperation, ghost rest: Bytes)
      modifies this
      ensures fed + rest == old(fed) + OperationThen(op, rest)
    {
      ghost var payload := PayloadThen(op.payload, rest);
      ghost var key := OptionalKeyThen(op.key, payload);
      UpdateBytes(RecordHead(op.operation), FamilyThen(op.family, key));
      UpdateFamily(op.family, key);
      UpdateOptionalKey(op.key, payload);
      UpdatePayload(op.payload, rest);
    }

    method UpdateOperations(ops: seq<LogOperation>)
      modifies this
      ensures fed == old(fed) + OperationsThen(ops, [])
    {
      assert ops[0..] == ops;
      for i := 0 to |ops|
        invariant fed + OperationsThen(ops[i..], []) == old(fed) + OperationsThen(ops, [])
      {
        assert ops[i..][1..] == ops[i + 1..];
        UpdateOperation(ops[i], OperationsThen(ops[i + 1..], []));
      }
      assert fed + [] == fed;
    }

    /** One row of the sorted view. */
    method UpdateViewRow(k: ViewKey, payload: Bytes, ghost rest: Bytes)
      modifies this
      ensures fed + rest == old(fed) + ViewRowThen(k, payload, rest)
    {
      ghost var tail := FrameThen(payload, rest);
      UpdateBytes(k.family, FrameThen(k.schemaHash, KeyThen(k.key, tail)));
      UpdateBytes(k.schemaHash, KeyThen(k.key, tail));
      UpdateKey(k.key, tail);
      UpdateBytes(payload, rest);
    }

    method UpdateViewRows(rows: map<ViewKey, Bytes>, keys: seq<ViewKey>)
      requires forall k :: k in keys ==> k in rows
      modifies this
      ensures fed == old(fed) + ViewRowsThen(rows, keys, [])
    {
      assert keys[0..] == keys;
      for i := 0 to |keys|
        invariant forall k :: k in keys[i..] ==> k in rows
        invariant fed + ViewRowsThen(rows, keys[i..], []) == old(fed) + ViewRowsThen(rows, keys, [])
      {
        assert keys[i..][1..] == keys[i + 1..];
        UpdateViewRow(keys[i], rows[keys[i]], ViewRowsThen(rows, keys[i + 1..], []));
      }
      assert fed + [] == fed;
    }

    method Finalize(f: ByteHash) returns (d: Digest)
      ensures d == f(fed)
    {
      d := f(fed);
    }
  }

  /** The digest of an entry's own fields, fed one field at a time. */
  method DigestEntry(f: ByteHash, e: Entry) returns (d: Digest)
    ensures d == EntryDigest(OfBytes(f), e)
  {
    ghost var ops := OperationsThen(e.operations, []);
    ghost var count := U64Then(|e.operations|, ops);
    ghost var previous := OptionalDigestThen(e.previous, count);
    ghost var snapshot := U64Then(e.snapshot, previous);
    ghost var sequence := U64Then(e.sequence, snapshot);
    ghost var schema := FrameThen(e.schemaHash, sequence);
    var hasher := new Hasher();
    hasher.UpdateBytes(ENTRY_TAG, FrameThen(e.storeName, schema));
    hasher.UpdateBytes(e.storeName, schema);
    hasher.UpdateBytes(e.schemaHash, sequence);
    hasher.Update(LittleEndian(e.sequence, 8), snapshot);
    hasher.Update(LittleEndian(e.snapshot, 8), previous);
    hasher.UpdateOptionalDigest(e.previous, count);
    hasher.Update(LittleEndian(|e.operations|, 8), ops);
    hasher.UpdateOperations(e.operations);
    assert [] + EntryStream(e) == EntryStream(e);
    EntryDigestOfBytes(f, e);
    d := hasher.Finalize(f);
  }

  /** The digest of the sorted view: row count, then every row in view order. */
  method DigestView(f: ByteHash, v: View) returns (d: Digest)
    ensures d == ViewDigest(OfBytes(f), v)
  {
    var keys := InViewOrder(v.rows.Keys);
    ghost var rows := ViewRowsThen(v.rows, keys, []);
    var hasher := new Hasher();
    hasher.UpdateBytes(VIEW_TAG, U64Then(|v.rows|, rows));
    hasher.Update(LittleEndian(|v.rows|, 8), rows);
    hasher.UpdateViewRows(v.rows, keys);
    assert [] + ViewStream(v.rows) == ViewStream(v.rows);
    DigestOfBytes(f, ViewItem(v.rows));
    d := hasher.Finalize(f);
  }
}
