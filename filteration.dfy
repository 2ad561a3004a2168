/**
 filter_annotation_by_folder (filteration.py): keep the annotation items
 whose video file <folder>/<name>.mp4 exists. The file system is a set of
 existing paths and the path join is a parameter, so every property below
 holds for any join.
 */
module Filteration {
  import opened Annotations

  /** The file the filter looks for: os.path.join(video_folder, video_name + ".mp4"). */
  function VideoFile(join: (string, string) -> string, folder: string, videoId: string): string {
    join(folder, videoId + ".mp4")
  }

  /** The dict comprehension: the items whose video file exists, in their original order. */
  function FilterAnnotationByFolder(annotation: seq<Entry>, folder: string, existing: set<string>,
                                    join: (string, string) -> string): (r: seq<Entry>)
    ensures |r| <= |annotation|
    ensures forall e :: e in r <==> e in annotation && VideoFile(join, folder, e.videoId) in existing
  {
    if annotation == [] then []
    else
      var p, e := annotation[..|annotation| - 1], annotation[|annotation| - 1];
      assert annotation == p + [e];
      var rest := FilterAnnotationByFolder(p, folder, existing, join);
      if VideoFile(join, folder, e.videoId) in existing then rest + [e] else rest
  }

  /** A key is kept exactly when it is a key of the input whose video file exists. */
  lemma FilterKeys(annotation: seq<Entry>, folder: string, existing: set<string>, join: (string, string) -> string)
    ensures forall k :: k in Ids(FilterAnnotationByFolder(annotation, folder, existing, join)) <==>
      k in Ids(annotation) && VideoFile(join, folder, k) in existing
  {
    var r := FilterAnnotationByFolder(annotation, folder, existing, join);
    forall k ensures k in Ids(r) <==> k in Ids(annotation) && VideoFile(join, folder, k) in existing {
      if k in Ids(r) {
        var i :| 0 <= i < |r| && r[i].videoId == k;
        assert r[i] in r;
        var j :| 0 <= j < |annotation| && annotation[j] == r[i];
      }
      if k in Ids(annotation) && VideoFile(join, folder, k) in existing {
        var j :| 0 <= j < |annotation| && annotation[j].videoId == k;
        assert annotation[j] in annotation;
        var i :| 0 <= i < |r| && r[i] == annotation[j];
      }
    }
  }

  /** The result of filtering a dictionary is again a dictionary. */
  lemma {:induction false} FilterDistinct(annotation: seq<Entry>, folder: string, existing: set<string>,
                                          join: (string, string) -> string)
    requires DistinctIds(annotation)
    ensures DistinctIds(FilterAnnotationByFolder(annotation, folder, existing, join))
  {
    if annotation != [] {
      var p, e := annotation[..|annotation| - 1], annotation[|annotation| - 1];
      assert forall i :: 0 <= i < |p| ==> p[i] == annotation[i];
      FilterDistinct(p, folder, existing, join);
      var rest := FilterAnnotationByFolder(p, folder, existing, join);
      if VideoFile(join, folder, e.videoId) in existing {
        forall i | 0 <= i < |rest| ensures rest[i].videoId != e.videoId {
          assert rest[i] in rest;
          var j :| 0 <= j < |p| && p[j] == rest[i];
        }
      }
    }
  }

  /** The input restricted to the keys whose video file exists. */
  ghost function Present(m: map<string, int>, folder: string, existing: set<string>,
                         join: (string, string) -> string): map<string, int> {
    map k | k in m && VideoFile(join, folder, k) in existing :: m[k]
  }

  /** Restricting an updated dictionary: the new entry survives exactly when its file exists. */
  lemma PresentUpdate(m: map<string, int>, k: string, v: int, folder: string, existing: set<string>,
                      join: (string, string) -> string)
    ensures Present(m[k := v], folder, existing, join) ==
      if VideoFile(join, folder, k) in existing then Present(m, folder, existing, join)[k := v]
      else Present(m, folder, existing, join)
  {
    var lhs := Present(m[k := v], folder, existing, join);
    var before := Present(m, folder, existing, join);
    if VideoFile(join, folder, k) in existing {
      assert lhs.Keys == before.Keys + {k};
      assert forall j | j in lhs :: lhs[j] == before[k := v][j];
    } else {
      assert lhs.Keys == before.Keys;
      assert forall j | j in lhs :: lhs[j] == before[j];
    }
  }

  /**
   As a dictionary the result is the input restricted to the keys whose file
   exists, each with its original value.
   */
  lemma {:induction false} FilterAsMap(annotation: seq<Entry>, folder: string, existing: set<string>,
                                       join: (string, string) -> string)
    ensures AsMap(FilterAnnotationByFolder(annotation, folder, existing, join)) ==
      Present(AsMap(annotation), folder, existing, join)
  {
    if annotation != [] {
      var p, e := annotation[..|annotation| - 1], annotation[|annotation| - 1];
      var rest := FilterAnnotationByFolder(p, folder, existing, join);
      FilterAsMap(p, folder, existing, join);
      assert AsMap(annotation) == AsMap(p)[e.videoId := e.action];
      PresentUpdate(AsMap(p), e.videoId, e.action, folder, existing, join);
      if VideoFile(join, folder, e.videoId) in existing {
        assert (rest + [e])[..|rest|] == rest;
        assert AsMap(rest + [e]) == AsMap(rest)[e.videoId := e.action];
      }
    }
  }

  /** Filtering twice against the same files is filtering once. */
  lemma {:induction false} FilterIdempotent(annotation: seq<Entry>, folder: string, existing: set<string>,
                                            join: (string, string) -> string)
    ensures var once := FilterAnnotationByFolder(annotation, folder, existing, join);
      FilterAnnotationByFolder(once, folder, existing, join) == once
  {
    if annotation != [] {
      var p, e := annotation[..|annotation| - 1], annotation[|annotation| - 1];
      var rest := FilterAnnotationByFolder(p, folder, existing, join);
      FilterIdempotent(p, folder, existing, join);
      if VideoFile(join, folder, e.videoId) in existing {
        assert (rest + [e])[..|rest|] == rest;
      }
    }
  }

  /** When every video file exists nothing is removed. */
  lemma {:induction false} FilterKeepsAll(annotation: seq<Entry>, folder: string, existing: set<string>,
                                          join: (string, string) -> string)
    requires forall i :: 0 <= i < |annotation| ==> VideoFile(join, folder, annotation[i].videoId) in existing
    ensures FilterAnnotationByFolder(annotation, folder, existing, join) == annotation
  {
    if annotation != [] {
      var p := annotation[..|annotation| - 1];
      assert forall i :: 0 <= i < |p| ==> p[i] == annotation[i];
      FilterKeepsAll(p, folder, existing, join);
      assert annotation == p + [annotation[|annotation| - 1]];
    }
  }

  /** When no file exists everything is removed. */
  lemma FilterKeepsNone(annotation: seq<Entry>, folder: string, join: (string, string) -> string)
    ensures FilterAnnotationByFolder(annotation, folder, {}, join) == []
  {
  }

  /** Only v1.mp4 is present, so only v1 is kept. */
  lemma OnlyPresentVideoKept()
    ensures FilterAnnotationByFolder([Entry("v1", 0), Entry("v2", 1)], "dataset/examples",
      {"dataset/examples/v1.mp4"}, (d, n) => d + "/" + n) == [Entry("v1", 0)]
  {
    var s := [Entry("v1", 0), Entry("v2", 1)];
    var join := (d: string, n: string) => d + "/" + n;
    assert s[..1] == [Entry("v1", 0)];
    assert s[..1][..0] == [];
    assert VideoFile(join, "dataset/examples", "v1") == "dataset/examples/v1.mp4";
    assert VideoFile(join, "dataset/examples", "v2") == "dataset/examples/v2.mp4";
    assert "dataset/examples/v2.mp4" != "dataset/examples/v1.mp4" by {
      assert "dataset/examples/v2.mp4"[18] != "dataset/examples/v1.mp4"[18];
    }
  }
}
