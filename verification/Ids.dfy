/** Composite ids "<object>===<suffix>", and what is read back from them. */
module Ids {
  import opened Wrappers
  import opened Text

  const MARK := "==="

  /** strings.Split(id, "===") */
  function IdParts(id: string): seq<string>
    decreases |id|
  {
    match Find(id, MARK, 0)
    case None => [id]
    case Some(i) => [id[..i]] + IdParts(id[i + 3..])
  }

  /** The guard a caller can check: the id of the object holds no separator and does not end in a part of one. */
  predicate PlainId(obj: string) {
    (forall i: nat :: i < |obj| ==> !OccursAt(obj, MARK, i)) && (obj != "" ==> obj[|obj| - 1] != '=')
  }

  lemma NoMarkWithoutSign(s: string)
    requires '=' !in s
    ensures IdParts(s) == [s]
  {
    forall i: nat
      ensures !OccursAt(s, MARK, i)
    {
      if i + 3 <= |s| {
        assert s[i] in s && s[i..i + 3][0] == s[i];
      }
    }
  }

  lemma MarkFirstAtEnd(obj: string, process: string)
    requires PlainId(obj)
    ensures Find(obj + MARK + process, MARK, 0) == Some(|obj|)
  {
    var id := obj + MARK + process;
    assert OccursAt(id, MARK, |obj|);
    forall i: nat | i < |obj|
      ensures !OccursAt(id, MARK, i)
    {
      if i + 3 <= |obj| {
        assert obj[i..i + 3] == id[i..i + 3];
        assert !OccursAt(obj, MARK, i);
      } else {
        assert id[i..i + 3][|obj| - 1 - i] == obj[|obj| - 1];
      }
    }
  }

  /** The handler of a composite id reads back the object it was sent to exactly for plain ids. */
  lemma CompositeIdReadBackIff(obj: string, process: string)
    requires '=' !in process
    ensures IdParts(obj + MARK + process) == [obj, process] <==> PlainId(obj)
  {
    var id := obj + MARK + process;
    if PlainId(obj) {
      MarkFirstAtEnd(obj, process);
      assert id[|obj| + 3..] == process && id[..|obj|] == obj;
      NoMarkWithoutSign(process);
    } else {
      var i: nat :| i < |obj| && OccursAt(id, MARK, i) by {
        EarlyMark(obj, process);
      }
      assert |IdParts(id)[0]| <= i;
    }
  }

  lemma EarlyMark(obj: string, process: string)
    requires !PlainId(obj)
    ensures exists i: nat :: i < |obj| && OccursAt(obj + MARK + process, MARK, i)
  {
    var id := obj + MARK + process;
    if i: nat :| i < |obj| && OccursAt(obj, MARK, i) {
      assert id[i..i + 3] == obj[i..i + 3];
      assert OccursAt(id, MARK, i);
    } else {
      assert id[|obj| - 1..|obj| + 2] == MARK;
      assert OccursAt(id, MARK, |obj| - 1);
    }
  }

  // ---------------------------------------------------------------- the first part

  predicate HasMark(id: string) {
    Find(id, MARK, 0).Some?
  }

  /** strings.Split(id, "===")[0] */
  function FirstPart(id: string): (r: string)
    ensures r <= id
    ensures r == id <==> !HasMark(id)
  {
    IdParts(id)[0]
  }

  /** A first part holds no mark, and if it was cut off it does not end in a part of one. */
  lemma FirstPartIsPlain(id: string)
    ensures !HasMark(FirstPart(id))
    ensures HasMark(id) ==> PlainId(FirstPart(id))
  {
    var r := FirstPart(id);
    forall i: nat
      ensures !OccursAt(r, MARK, i)
    {
      if i + 3 <= |r| {
        assert r[i..i + 3] == id[i..i + 3];
        assert !OccursAt(id, MARK, i);
      }
    }
    if HasMark(id) && r != "" {
      MarkAt(id, |r|);
      assert !OccursAt(id, MARK, |r| - 1);
      assert id[|r| - 1..|r| + 2] == [r[|r| - 1], '=', '='];
    }
  }

  lemma MarkAt(id: string, i: nat)
    requires OccursAt(id, MARK, i)
    ensures id[i] == '=' && id[i + 1] == '=' && id[i + 2] == '='
  {
    assert id[i..i + 3][0] == id[i] && id[i..i + 3][1] == id[i + 1] && id[i..i + 3][2] == id[i + 2];
  }

  /** The first part of a composite id is its object exactly for plain ids, whatever the suffix. */
  lemma FirstPartIff(obj: string, suffix: string)
    ensures FirstPart(obj + MARK + suffix) == obj <==> PlainId(obj)
    ensures HasMark(obj + MARK + suffix)
  {
    assert OccursAt(obj + MARK + suffix, MARK, |obj|);
    if PlainId(obj) {
      MarkFirstAtEnd(obj, suffix);
      assert (obj + MARK + suffix)[..|obj|] == obj;
    } else {
      EarlyMark(obj, suffix);
    }
  }

  /** The suffix plays no part in it. */
  lemma SuffixIgnored(obj: string, s1: string, s2: string)
    ensures FirstPart(obj + MARK + s1) == FirstPart(obj + MARK + s2)
  {
    var id1, id2 := obj + MARK + s1, obj + MARK + s2;
    FirstPartIff(obj, s1);
    FirstPartIff(obj, s2);
    var i1, i2 := Find(id1, MARK, 0).value, Find(id2, MARK, 0).value;
    assert OccursAt(id1, MARK, |obj|) && OccursAt(id2, MARK, |obj|);
    assert id1[..|obj| + 3] == id2[..|obj| + 3] == obj + MARK;
    assert id2[i1..i1 + 3] == id1[i1..i1 + 3];
    assert id1[i2..i2 + 3] == id2[i2..i2 + 3];
    assert OccursAt(id2, MARK, i1) && OccursAt(id1, MARK, i2);
    assert id1[..i1] == id2[..i1];
  }
}
