/**
 An annotation file is a JSON object from video identifier to action code.
 It is seen here as the sequence of its items in file order, which is how a
 Python dictionary loaded from it iterates.
 */
module Annotations {

  /** One item of an annotation dictionary: a video identifier and its action code. */
  datatype Entry = Entry(videoId: string, action: int)

  /** The ways the augmentation run aborts. */
  datatype Error =
    | MalformedLabelKey(key: string)   // int() rejects a key of the label file (ValueError)
    | UnknownAction(code: int)         // an action code has no name in the label map (KeyError)

  /** The identifiers of the items. */
  function Ids(s: seq<Entry>): set<string> {
    set i | 0 <= i < |s| :: s[i].videoId
  }

  /** A dictionary's items never repeat a key. */
  predicate DistinctIds(s: seq<Entry>) {
    forall i, j :: 0 <= i < j < |s| ==> s[i].videoId != s[j].videoId
  }

  /** The dictionary the items denote; a later item overrides an earlier one with the same key. */
  function AsMap(s: seq<Entry>): (m: map<string, int>)
    ensures m.Keys == Ids(s)
  {
    if s == [] then map[]
    else
      var p := s[..|s| - 1];
      assert forall i :: 0 <= i < |p| ==> p[i] == s[i];
      assert Ids(s) == Ids(p) + {s[|s| - 1].videoId};
      AsMap(p)[s[|s| - 1].videoId := s[|s| - 1].action]
  }

  /** In a dictionary every item's value is what its key maps to. */
  lemma {:induction false} AsMapOfDistinct(s: seq<Entry>)
    requires DistinctIds(s)
    ensures forall i :: 0 <= i < |s| ==> AsMap(s)[s[i].videoId] == s[i].action
  {
    if s != [] {
      var p := s[..|s| - 1];
      assert forall i :: 0 <= i < |p| ==> p[i] == s[i];
      AsMapOfDistinct(p);
    }
  }
}
