/**
 * The device under the connector: a byte array. A write command either stores its whole staged range or
 * fails and may leave anything in that range; a read command returns the current bytes or fails.
 */
module Bdevs {
  import opened Basics
  import opened Segments
  import opened Ownership

  /** One batch the device was asked for: what it answered for each command, None when it took none of them. */
  datatype Served = Served(writing: bool, items: seq<IoBatchItem>, answer: Option<seq<bool>>)

  /** The device took the batch and every command succeeded. */
  predicate Granted(answer: Option<seq<bool>>) {
    answer.Some? && forall i | 0 <= i < |answer.value| :: answer.value[i]
  }

  /** history lists the batches so far; nothing reads it. */
  class Bdev {
    var content: Bytes
    ghost var history: seq<Served>

    constructor (capacity: nat)
      ensures |content| == capacity && history == []
    {
      content := Zeros(capacity);
      history := [];
    }

    ghost predicate Accepts(items: seq<IoBatchItem>)
      reads this`content
    {
      forall i | 0 <= i < |items| ::
        && 0 <= items[i].byteOffset && items[i].byteOffset + items[i].physicalLength <= |content|
        && items[i].logicalLength <= items[i].physicalLength
    }

    // None: the runtime rejected the batch before any command was issued.
    method WriteBatch(items: seq<IoBatchItem>, data: seq<Bytes>) returns (r: Option<seq<bool>>)
      requires Accepts(items) && |data| == |items|
      requires forall i | 0 <= i < |items| :: |data[i]| == items[i].logicalLength
      requires forall i, j | 0 <= i < j < |items| :: RangesApart(items[i], items[j])
      modifies this
      ensures |content| == |old(content)|
      ensures history == old(history) + [Served(true, items, r)]
      ensures forall a | 0 <= a < |content| && content[a] != old(content[a]) ::
                exists i :: 0 <= i < |items| && Touches(items[i], a)
      ensures r.None? ==> content == old(content)
      ensures r.Some? ==> |r.value| == |items|
      ensures r.Some? ==> forall i | 0 <= i < |items| && r.value[i] ::
                content[items[i].byteOffset..items[i].byteOffset + items[i].physicalLength]
                == Staged(data[i], items[i].physicalLength)
    {
      var available: bool := *;
      if !available {
        history := history + [Served(true, items, None)];
        return None;
      }
      var results: seq<bool> := [];
      for i := 0 to |items|
        invariant |content| == |old(content)| && |results| == i && history == old(history)
        invariant forall a | 0 <= a < |content| && content[a] != old(content[a]) ::
                    exists j :: 0 <= j < i && Touches(items[j], a)
        invariant forall j | 0 <= j < i && results[j] ::
                    content[items[j].byteOffset..items[j].byteOffset + items[j].physicalLength]
                    == Staged(data[j], items[j].physicalLength)
      {
        var ok: bool := *;
        var bytes := Staged(data[i], items[i].physicalLength);
        if !ok { bytes := Junk(items[i].physicalLength); }
        ghost var before := content;
        content := Overwrite(content, items[i].byteOffset, bytes);
        forall j | 0 <= j < i && results[j]
          ensures content[items[j].byteOffset..items[j].byteOffset + items[j].physicalLength]
                  == before[items[j].byteOffset..items[j].byteOffset + items[j].physicalLength]
        {
          assert RangesApart(items[j], items[i]);
          OverwriteApart(before, items[i].byteOffset, bytes, items[j].byteOffset, items[j].byteOffset + items[j].physicalLength);
        }
        forall a | 0 <= a < |content| && content[a] != old(content[a])
          ensures exists j :: 0 <= j < i + 1 && Touches(items[j], a)
        {
          if !Touches(items[i], a) { assert content[a] == before[a]; }
        }
        results := results + [ok];
      }
      history := history + [Served(true, items, Some(results))];
      r := Some(results);
    }

    // Each successful command returns the logical bytes of its range.
    method ReadBatch(items: seq<IoBatchItem>) returns (r: Option<seq<Option<Bytes>>>)
      requires Accepts(items)
      modifies this`history
      ensures history == old(history) + [Served(false, items, Flags(r))]
      ensures r.Some? ==> |r.value| == |items|
      ensures r.Some? ==> forall i | 0 <= i < |items| && r.value[i].Some? ::
                r.value[i].value == content[items[i].byteOffset..items[i].byteOffset + items[i].logicalLength]
    {
      var available: bool := *;
      if !available {
        history := history + [Served(false, items, None)];
        return None;
      }
      var results: seq<Option<Bytes>> := [];
      for i := 0 to |items|
        invariant |results| == i
        invariant forall j | 0 <= j < i && results[j].Some? ::
          results[j].value == content[items[j].byteOffset..items[j].byteOffset + items[j].logicalLength]
      {
        var ok: bool := *;
        var bytes := content[items[i].byteOffset..items[i].byteOffset + items[i].logicalLength];
        results := results + [if ok then Some(bytes) else None];
      }
      history := history + [Served(false, items, Flags(Some(results)))];
      r := Some(results);
    }
  }

  lemma OverwriteApart(content: Bytes, offset: nat, data: Bytes, lo: nat, hi: nat)
    requires offset + |data| <= |content| && lo <= hi <= |content| && (hi <= offset || offset + |data| <= lo)
    ensures Overwrite(content, offset, data)[lo..hi] == content[lo..hi]
  {}

  /** Which commands of a read batch succeeded. */
  function Flags(r: Option<seq<Option<Bytes>>>): (flags: Option<seq<bool>>)
    ensures r.None? <==> flags.None?
    ensures r.Some? ==> |flags.value| == |r.value| && forall i | 0 <= i < |r.value| :: flags.value[i] == r.value[i].Some?
  {
    if r.None? then None else Some(seq(|r.value|, i requires 0 <= i < |r.value| => r.value[i].Some?))
  }

  /** Whatever a failed write left behind. */
  method Junk(n: nat) returns (bytes: Bytes)
    ensures |bytes| == n
  {
    bytes := [];
    while |bytes| < n
      invariant |bytes| <= n
    {
      var b: Byte := *;
      bytes := bytes + [b];
    }
  }
}
