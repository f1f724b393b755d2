/**
 * What every model of the DigitRecognition app shares: category(of:), the class a model's
 * output vector votes for, which is the position of its largest entry.
 */
module MachineLearningModel {
  import opened Buffers
  import VectorOps

  /** The first position holding the largest entry of a non-empty sequence. */
  function FirstMax(s: seq<real>): (i: nat)
    requires |s| > 0
    ensures i < |s|
  {
    if |s| == 1 then 0
    else
      var j := FirstMax(s[..|s| - 1]);
      if s[|s| - 1] > s[j] then |s| - 1 else j
  }

  /** FirstMax is a maximum, and no earlier entry reaches it. */
  lemma {:induction false} FirstMaxIsFirstMaximum(s: seq<real>)
    requires |s| > 0
    ensures forall k :: 0 <= k < |s| ==> s[k] <= s[FirstMax(s)]
    ensures forall k :: 0 <= k < FirstMax(s) ==> s[k] < s[FirstMax(s)]
  {
    if |s| > 1 {
      var init := s[..|s| - 1];
      FirstMaxIsFirstMaximum(init);
      assert forall k :: 0 <= k < |init| ==> init[k] == s[k];
    }
  }

  /** Only one position is a maximum with every earlier entry strictly smaller. */
  lemma FirstMaxUnique(s: seq<real>, i: nat)
    requires i < |s|
    requires forall k :: 0 <= k < |s| ==> s[k] <= s[i]
    requires forall k :: 0 <= k < i ==> s[k] < s[i]
    ensures i == FirstMax(s)
  {
    FirstMaxIsFirstMaximum(s);
  }

  /**
   * category(of:): the index vDSP_maxvi reports, a valid position of the largest entry and
   * the first such. Only the vector is read.
   */
  method Category(v: Vector) returns (index: nat)
    requires v.count > 0
    ensures index < v.count && index == FirstMax(v.Elements())
    ensures forall k :: 0 <= k < v.count ==> v.buffer[k] <= v.buffer[index]
  {
    var value;
    value, index := VectorOps.MaxValueAndIndex(v);
    FirstMaxUnique(v.Elements(), index);
  }
}
