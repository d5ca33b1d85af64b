/** The source of a bulk copy of codes (internal/store/copyfrom.go) and the code that feeds it
    (internal/batch/batch.go). */
module CopySource {

  datatype Row = Row(batchId: int, code: string)

  class CodeRows {
    var rows: seq<Row>
    var skippedFirstNextCall: bool

    constructor (rows: seq<Row>)
      ensures Left() == rows
    {
      this.rows, skippedFirstNextCall := rows, false;
    }

    /** The rows that Next has yet to reach. */
    ghost function Left(): (s: seq<Row>)
      reads this
    {
      if rows == [] then [] else if skippedFirstNextCall then rows[1..] else rows
    }

    /** Next has reached a row. */
    ghost predicate OnRow()
      reads this
    {
      skippedFirstNextCall && rows != []
    }

    method Next() returns (more: bool)
      modifies this
      ensures more <==> old(Left()) != []
      ensures more ==> OnRow() && rows[0] == old(Left())[0] && Left() == old(Left())[1..]
      ensures !more ==> Left() == []
    {
      if |rows| == 0 {
        return false;
      }
      if !skippedFirstNextCall {
        skippedFirstNextCall := true;
        return true;
      }
      rows := rows[1..];
      return |rows| > 0;
    }

    method Values() returns (r: Row)
      requires OnRow()
      ensures r == rows[0]
    {
      r := rows[0];
    }

    /** The driver's copy loop: what it reads is every row that was left, once and in order. */
    method Drain() returns (copied: seq<Row>)
      modifies this
      ensures copied == old(Left()) && Left() == []
    {
      copied := [];
      ghost var all := Left();
      var more := Next();
      while more
        invariant more ==> OnRow()
        invariant copied + (if more then [rows[0]] else []) + Left() == all
        invariant !more ==> Left() == []
        decreases |Left()|, more
      {
        var r := Values();
        ghost var before, front := Left(), copied;
        copied := copied + [r];
        more := Next();
        Shift(front, r, before, if more then [rows[0]] else [], Left());
      }
    }
  }

  /** A row moves from what is left to what has been copied. */
  lemma Shift(front: seq<Row>, r: Row, before: seq<Row>, reached: seq<Row>, left: seq<Row>)
    requires reached + left == before
    ensures front + [r] + reached + left == front + [r] + before
  {
  }

  /** The codes part of CreateBatch: the rows are the codes in order, all of the new batch. */
  method CopyCodes(batchId: int, codes: seq<string>) returns (copied: seq<Row>, inserted: nat)
    ensures inserted == |codes| == |copied|
    ensures forall i :: 0 <= i < |codes| ==> copied[i] == Row(batchId, codes[i])
  {
    var params: seq<Row> := [];
    for i := 0 to |codes|
      invariant |params| == i && forall j :: 0 <= j < i ==> params[j] == Row(batchId, codes[j])
    {
      params := params + [Row(batchId, codes[i])];
    }
    var source := new CodeRows(params);
    copied := source.Drain();
    inserted := |copied|;
  }
}
