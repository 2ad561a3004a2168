/**
 augmentVideo (augment_videos.py): read the label map, count the label names,
 and for every video whose label name is rare enough synthesize four new
 annotation entries (two rotations, two translations) and ask for the four
 derived video files.
 */
module AugmentVideos {
  import opened Wrappers
  import opened Annotations
  import opened Decimal
  import opened LabelCounts
  import opened VideoTransforms

  /** Every key of the label file is a literal int() accepts. */
  predicate NumericKeys(items: seq<(string, string)>) {
    forall i :: 0 <= i < |items| ==> IsIntLiteral(items[i].0)
  }

  /**
   keystoint, the object hook json.load applies to the label file: every key
   is converted with int(), and the first key int() rejects aborts the load.
   When two keys denote the same number, the later item wins, as in a dict
   comprehension.
   */
  function KeysToInt(items: seq<(string, string)>): (r: Result<map<int, string>, Error>)
    ensures r.Ok? <==> NumericKeys(items)
    ensures r.Err? ==>
      exists i :: 0 <= i < |items| && !IsIntLiteral(items[i].0) && r.error == MalformedLabelKey(items[i].0) &&
        NumericKeys(items[..i])
  {
    if items == [] then Ok(map[])
    else
      var p, key, name := items[..|items| - 1], items[|items| - 1].0, items[|items| - 1].1;
      assert forall i :: 0 <= i < |p| ==> p[i] == items[i];
      match KeysToInt(p)
      case Err(e) =>
        assert forall i :: 0 <= i < |p| ==> p[..i] == items[..i];
        Err(e)
      case Ok(m) =>
        if IsIntLiteral(key) then Ok(m[ParseInt(key) := name])
        else
          assert items[..|items| - 1] == p;
          Err(MalformedLabelKey(key))
  }

  /** The codes the keys of a label file denote. */
  function Codes(items: seq<(string, string)>): set<int>
    requires NumericKeys(items)
  {
    set i | 0 <= i < |items| :: ParseInt(items[i].0)
  }

  /** No later item of a label file maps to the same code as item i. */
  predicate LastWithCode(items: seq<(string, string)>, i: nat)
    requires i < |items| && NumericKeys(items)
  {
    forall j :: i < j < |items| ==> ParseInt(items[j].0) != ParseInt(items[i].0)
  }

  /** keystoint on one more item: the previous map with that item's code bound to its name. */
  lemma KeysToIntSnoc(items: seq<(string, string)>, p: seq<(string, string)>, last: (string, string))
    requires items == p + [last] && NumericKeys(items)
    ensures NumericKeys(p) && IsIntLiteral(last.0) && KeysToInt(p).Ok?
    ensures KeysToInt(items) == Ok(KeysToInt(p).value[ParseInt(last.0) := last.1])
    ensures Codes(items) == Codes(p) + {ParseInt(last.0)}
  {
    assert items[..|items| - 1] == p;
    assert forall i :: 0 <= i < |p| ==> p[i] == items[i];
    assert items[|p|] == last;
  }

  /** keystoint keeps every entry: one key per code, mapped to the name of the last item with that code. */
  lemma {:induction false} KeysToIntEntries(items: seq<(string, string)>)
    requires NumericKeys(items)
    ensures KeysToInt(items).value.Keys == Codes(items)
    ensures forall i :: 0 <= i < |items| && LastWithCode(items, i) ==>
      KeysToInt(items).value[ParseInt(items[i].0)] == items[i].1
  {
    if items != [] {
      var p, last := items[..|items| - 1], items[|items| - 1];
      assert items == p + [last];
      KeysToIntSnoc(items, p, last);
      KeysToIntEntries(p);
      var m, c := KeysToInt(p).value, ParseInt(last.0);
      forall i | 0 <= i < |items| && LastWithCode(items, i)
        ensures m[c := last.1][ParseInt(items[i].0)] == items[i].1
      {
        if i < |p| {
          assert p[i] == items[i];
          assert ParseInt(items[i].0) != c;
          assert LastWithCode(p, i);
        }
      }
    }
  }

  /**
   A label file written from a map with int keys (json turns each key into
   str(key)) is read back by keystoint as that same map.
   */
  lemma KeysToIntReadsDumpedKeys(items: seq<(string, string)>, codes: seq<int>)
    requires |codes| == |items|
    requires forall i :: 0 <= i < |items| ==> items[i].0 == IntToString(codes[i])
    requires forall i, j :: 0 <= i < j < |codes| ==> codes[i] != codes[j]
    ensures KeysToInt(items).Ok?
    ensures KeysToInt(items).value.Keys == set i | 0 <= i < |codes| :: codes[i]
    ensures forall i :: 0 <= i < |items| ==> KeysToInt(items).value[codes[i]] == items[i].1
  {
    forall i | 0 <= i < |items| ensures IsIntLiteral(items[i].0) && ParseInt(items[i].0) == codes[i] {
      IntToStringRoundTrip(codes[i]);
    }
    KeysToIntEntries(items);
    var m := KeysToInt(items).value;
    forall x ensures x in m <==> x in set i | 0 <= i < |codes| :: codes[i] {
      if x in m {
        var i :| 0 <= i < |items| && ParseInt(items[i].0) == x;
        assert codes[i] == x;
      } else {
        forall i | 0 <= i < |codes| ensures codes[i] != x {
          assert ParseInt(items[i].0) in Codes(items);
        }
      }
    }
    forall i | 0 <= i < |items| ensures m[codes[i]] == items[i].1 {
      assert LastWithCode(items, i);
    }
  }

  /** Where the videos live: the source and output directories and which source files open. */
  datatype Storage = Storage(dataDir: string, outputDir: string, openable: set<string>)

  /** path = data_dir + video_id + ".mp4" */
  function SourcePath(env: Storage, videoId: string): (path: string)
    ensures env.dataDir + videoId <= path && HasMp4Extension(path)
    ensures |path| == |env.dataDir| + |videoId| + 4
  {
    env.dataDir + videoId + ".mp4"
  }

  /** The four entries the driver adds for one chosen video. */
  function AddVariants(m: map<string, int>, e: Entry): (r: map<string, int>)
    ensures m.Keys <= r.Keys && |r| <= |m| + 4
  {
    m[AugmentedKey(e.videoId, 0) := e.action][AugmentedKey(e.videoId, 1) := e.action]
     [AugmentedKey(e.videoId, 2) := e.action][AugmentedKey(e.videoId, 3) := e.action]
  }

  /** The files the driver's four transform calls for one chosen video write, in call order. */
  function VideoOutputs(env: Storage, e: Entry): (w: seq<string>)
    ensures |w| == if SourcePath(env, e.videoId) in env.openable then 4 else 2
  {
    var path := SourcePath(env, e.videoId);
    Written(RotateVideo(path, env.outputDir, e.videoId, 30, env.openable)) +
    Written(RotateVideo(path, env.outputDir, e.videoId, 330, env.openable)) +
    Written(TranslateVideo(path, env.outputDir, e.videoId, 32, 0)) +
    Written(TranslateVideo(path, env.outputDir, e.videoId, -32, 0))
  }

  /** augmented_annotation after the driver has walked the items s. */
  function Synthesized(s: seq<Entry>, labels: map<int, string>, chosen: set<string>): (m: map<string, int>)
    requires Covered(s, labels)
    ensures |m| <= 4 * |s|
  {
    if s == [] then map[]
    else
      var m := Synthesized(s[..|s| - 1], labels, chosen);
      var e := s[|s| - 1];
      if labels[e.action] in chosen then AddVariants(m, e) else m
  }

  /** The files the transform calls write while the driver walks the items s. */
  function Produced(s: seq<Entry>, labels: map<int, string>, chosen: set<string>, env: Storage): (w: seq<string>)
    requires Covered(s, labels)
    ensures |w| <= 4 * |s|
  {
    if s == [] then []
    else
      var w := Produced(s[..|s| - 1], labels, chosen, env);
      var e := s[|s| - 1];
      if labels[e.action] in chosen then w + VideoOutputs(env, e) else w
  }

  /** How many of the items s have a chosen label name. */
  function ChosenCount(s: seq<Entry>, labels: map<int, string>, chosen: set<string>): nat
    requires Covered(s, labels)
  {
    if s == [] then 0
    else ChosenCount(s[..|s| - 1], labels, chosen) + (if labels[s[|s| - 1].action] in chosen then 1 else 0)
  }

  /** k is a chosen video's identifier followed by one of the four suffixes. */
  ghost predicate IsAugmentedKey(s: seq<Entry>, labels: map<int, string>, chosen: set<string>, k: string)
    requires Covered(s, labels)
  {
    exists i, j :: 0 <= i < |s| && 0 <= j < 4 && labels[s[i].action] in chosen && k == AugmentedKey(s[i].videoId, j)
  }

  /** path is the output name of a chosen video's variant whose transform call writes it. */
  ghost predicate IsWrittenPath(s: seq<Entry>, labels: map<int, string>, chosen: set<string>, env: Storage,
                                path: string)
    requires Covered(s, labels)
  {
    exists i, j :: 0 <= i < |s| && 0 <= j < 4 && labels[s[i].action] in chosen &&
      (j >= 2 || SourcePath(env, s[i].videoId) in env.openable) &&
      path == env.outputDir + (AugmentedKey(s[i].videoId, j)) + ".mp4"
  }

  lemma AddVariantsKeys(m: map<string, int>, e: Entry)
    ensures forall k :: k in AddVariants(m, e) <==>
      k in m || exists j :: 0 <= j < 4 && k == AugmentedKey(e.videoId, j)
    ensures forall j :: 0 <= j < 4 ==> AddVariants(m, e)[AugmentedKey(e.videoId, j)] == e.action
    ensures forall k :: k in m && (forall j :: 0 <= j < 4 ==> k != AugmentedKey(e.videoId, j)) ==>
      AddVariants(m, e)[k] == m[k]
  {
    forall j, j' | 0 <= j < j' < 4 ensures AugmentedKey(e.videoId, j) != AugmentedKey(e.videoId, j') {
      if AugmentedKey(e.videoId, j) == AugmentedKey(e.videoId, j') {
        AugmentedKeyInjective(e.videoId, j, e.videoId, j');
      }
    }
  }

  lemma AddVariantsSize(m: map<string, int>, e: Entry)
    requires forall j :: 0 <= j < 4 ==> AugmentedKey(e.videoId, j) !in m
    ensures |AddVariants(m, e)| == |m| + 4
  {
    AddVariantsKeys(m, e);
    var k0, k1, k2, k3 := AugmentedKey(e.videoId, 0), AugmentedKey(e.videoId, 1),
                          AugmentedKey(e.videoId, 2), AugmentedKey(e.videoId, 3);
    var a := m[k0 := e.action];
    var b := a[k1 := e.action];
    var c := b[k2 := e.action];
    assert k1 !in a;
    assert k2 !in b;
    assert k3 !in c;
  }

  lemma IsAugmentedKeySnoc(p: seq<Entry>, e: Entry, labels: map<int, string>, chosen: set<string>, k: string)
    requires Covered(p + [e], labels)
    ensures Covered(p, labels) && e.action in labels
    ensures IsAugmentedKey(p + [e], labels, chosen, k) <==>
      || IsAugmentedKey(p, labels, chosen, k)
      || (labels[e.action] in chosen && exists j :: 0 <= j < 4 && k == AugmentedKey(e.videoId, j))
  {
    var s := p + [e];
    assert forall i :: 0 <= i < |p| ==> p[i] == s[i];
    assert s[|p|] == e;
    if IsAugmentedKey(s, labels, chosen, k) {
      var i, j :| 0 <= i < |s| && 0 <= j < 4 && labels[s[i].action] in chosen && k == AugmentedKey(s[i].videoId, j);
      if i < |p| {
        assert IsAugmentedKey(p, labels, chosen, k);
      }
    }
    if labels[e.action] in chosen && exists j :: 0 <= j < 4 && k == AugmentedKey(e.videoId, j) {
      var j :| 0 <= j < 4 && k == AugmentedKey(e.videoId, j);
      assert s[|p|] == e;
    }
  }

  /** The result holds exactly the four suffixed keys of every chosen video, and nothing else. */
  lemma {:induction false} SynthesizedKeys(s: seq<Entry>, labels: map<int, string>, chosen: set<string>)
    requires Covered(s, labels)
    ensures forall k :: k in Synthesized(s, labels, chosen) <==> IsAugmentedKey(s, labels, chosen, k)
  {
    if s != [] {
      var p, e := s[..|s| - 1], s[|s| - 1];
      assert s == p + [e];
      IsAugmentedKeySnoc(p, e, labels, chosen, "");
      SynthesizedKeys(p, labels, chosen);
      var m := Synthesized(p, labels, chosen);
      AddVariantsKeys(m, e);
      forall k ensures k in Synthesized(s, labels, chosen) <==> IsAugmentedKey(s, labels, chosen, k) {
        IsAugmentedKeySnoc(p, e, labels, chosen, k);
      }
    }
  }

  /** Variant j of a chosen video i maps to the video's action code. */
  lemma {:induction false} SynthesizedValueAt(s: seq<Entry>, labels: map<int, string>, chosen: set<string>, i: nat, j: nat)
    requires Covered(s, labels) && DistinctIds(s)
    requires i < |s| && j < 4 && labels[s[i].action] in chosen
    ensures AugmentedKey(s[i].videoId, j) in Synthesized(s, labels, chosen)
    ensures Synthesized(s, labels, chosen)[AugmentedKey(s[i].videoId, j)] == s[i].action
  {
    var p, e := s[..|s| - 1], s[|s| - 1];
    assert forall i :: 0 <= i < |p| ==> p[i] == s[i];
    var m := Synthesized(p, labels, chosen);
    AddVariantsKeys(m, e);
    if i < |p| {
      SynthesizedValueAt(p, labels, chosen, i, j);
      forall j' | 0 <= j' < 4 ensures AugmentedKey(s[i].videoId, j) != AugmentedKey(e.videoId, j') {
        if AugmentedKey(s[i].videoId, j) == AugmentedKey(e.videoId, j') {
          AugmentedKeyInjective(s[i].videoId, j, e.videoId, j');
        }
      }
    }
  }

  /** In a dictionary every new key maps to the action code of the video it was made from. */
  lemma SynthesizedValues(s: seq<Entry>, labels: map<int, string>, chosen: set<string>)
    requires Covered(s, labels) && DistinctIds(s)
    ensures forall i, j :: 0 <= i < |s| && 0 <= j < 4 && labels[s[i].action] in chosen ==>
      AugmentedKey(s[i].videoId, j) in Synthesized(s, labels, chosen) &&
      Synthesized(s, labels, chosen)[AugmentedKey(s[i].videoId, j)] == s[i].action
  {
    forall i, j | 0 <= i < |s| && 0 <= j < 4 && labels[s[i].action] in chosen
      ensures AugmentedKey(s[i].videoId, j) in Synthesized(s, labels, chosen) &&
        Synthesized(s, labels, chosen)[AugmentedKey(s[i].videoId, j)] == s[i].action
    {
      SynthesizedValueAt(s, labels, chosen, i, j);
    }
  }

  /** A dictionary with n chosen videos yields exactly 4 * n new entries. */
  lemma {:induction false} SynthesizedSize(s: seq<Entry>, labels: map<int, string>, chosen: set<string>)
    requires Covered(s, labels) && DistinctIds(s)
    ensures |Synthesized(s, labels, chosen)| == 4 * ChosenCount(s, labels, chosen)
  {
    if s != [] {
      var p, e := s[..|s| - 1], s[|s| - 1];
      assert forall i :: 0 <= i < |p| ==> p[i] == s[i];
      SynthesizedSize(p, labels, chosen);
      var m := Synthesized(p, labels, chosen);
      if labels[e.action] in chosen {
        SynthesizedKeys(p, labels, chosen);
        forall j | 0 <= j < 4 ensures AugmentedKey(e.videoId, j) !in m {
          if AugmentedKey(e.videoId, j) in m {
            var i, j' :| 0 <= i < |p| && 0 <= j' < 4 && labels[p[i].action] in chosen &&
              AugmentedKey(e.videoId, j) == AugmentedKey(p[i].videoId, j');
            AugmentedKeyInjective(e.videoId, j, p[i].videoId, j');
          }
        }
        AddVariantsSize(m, e);
      }
    }
  }

  /** Every key of the result ends with one of the four suffixes. */
  lemma {:induction false} KeysEndWithSuffix(s: seq<Entry>, labels: map<int, string>, chosen: set<string>)
    requires Covered(s, labels)
    ensures forall k :: k in Synthesized(s, labels, chosen) ==>
      exists j :: 0 <= j < 4 && |Suffixes[j]| <= |k| && k[|k| - |Suffixes[j]|..] == Suffixes[j]
  {
    SynthesizedKeys(s, labels, chosen);
    forall k | k in Synthesized(s, labels, chosen)
      ensures exists j :: 0 <= j < 4 && |Suffixes[j]| <= |k| && k[|k| - |Suffixes[j]|..] == Suffixes[j]
    {
      var i, j :| 0 <= i < |s| && 0 <= j < 4 && labels[s[i].action] in chosen && k == AugmentedKey(s[i].videoId, j);
      assert k == s[i].videoId + Suffixes[j];
      assert k[|k| - |Suffixes[j]|..] == Suffixes[j];
    }
  }

  /** When no label name is chosen the driver adds nothing and writes nothing. */
  lemma {:induction false} NothingChosen(s: seq<Entry>, labels: map<int, string>, chosen: set<string>, env: Storage)
    requires Covered(s, labels)
    requires forall i :: 0 <= i < |s| ==> labels[s[i].action] !in chosen
    ensures Synthesized(s, labels, chosen) == map[]
    ensures Produced(s, labels, chosen, env) == []
  {
    if s != [] {
      var p := s[..|s| - 1];
      assert forall i :: 0 <= i < |p| ==> p[i] == s[i];
      NothingChosen(p, labels, chosen, env);
    }
  }

  /** The paths one chosen video's four calls write: all four names, the rotations only when the source opens. */
  lemma VideoOutputPaths(env: Storage, e: Entry)
    ensures forall path :: path in VideoOutputs(env, e) <==>
      exists j :: 0 <= j < 4 && (j >= 2 || SourcePath(env, e.videoId) in env.openable) &&
        path == env.outputDir + (AugmentedKey(e.videoId, j)) + ".mp4"
  {
    OutputNamesMatchKeys(SourcePath(env, e.videoId), env.outputDir, e.videoId, env.openable);
  }

  /**
   The written files are exactly the output names output_dir + key + ".mp4"
   of the chosen videos' keys, less the rotations of sources that do not open.
   */
  lemma {:induction false} ProducedPaths(s: seq<Entry>, labels: map<int, string>, chosen: set<string>, env: Storage)
    requires Covered(s, labels)
    ensures forall path :: path in Produced(s, labels, chosen, env) <==> IsWrittenPath(s, labels, chosen, env, path)
  {
    if s != [] {
      var p, e := s[..|s| - 1], s[|s| - 1];
      assert forall i :: 0 <= i < |p| ==> p[i] == s[i];
      ProducedPaths(p, labels, chosen, env);
      VideoOutputPaths(env, e);
      forall path ensures path in Produced(s, labels, chosen, env) <==> IsWrittenPath(s, labels, chosen, env, path) {
        if IsWrittenPath(s, labels, chosen, env, path) {
          var i, j :| 0 <= i < |s| && 0 <= j < 4 && labels[s[i].action] in chosen &&
            (j >= 2 || SourcePath(env, s[i].videoId) in env.openable) &&
            path == env.outputDir + (AugmentedKey(s[i].videoId, j)) + ".mp4";
          if i < |p| {
            assert IsWrittenPath(p, labels, chosen, env, path);
          }
        }
        if path in Produced(s, labels, chosen, env) && path !in Produced(p, labels, chosen, env) {
          var j :| 0 <= j < 4 && (j >= 2 || SourcePath(env, e.videoId) in env.openable) &&
            path == env.outputDir + (AugmentedKey(e.videoId, j)) + ".mp4";
          assert IsWrittenPath(s, labels, chosen, env, path) by {
            assert 0 <= |s| - 1 < |s| && labels[s[|s| - 1].action] in chosen;
          }
        }
      }
    }
  }

  /** Every written file is named after a key of the synthesized annotation. */
  lemma WrittenFilesNameKeys(s: seq<Entry>, labels: map<int, string>, chosen: set<string>, env: Storage)
    requires Covered(s, labels)
    ensures forall path :: path in Produced(s, labels, chosen, env) ==>
      exists k :: k in Synthesized(s, labels, chosen) && path == env.outputDir + k + ".mp4"
  {
    ProducedPaths(s, labels, chosen, env);
    SynthesizedKeys(s, labels, chosen);
    forall path | path in Produced(s, labels, chosen, env)
      ensures exists k :: k in Synthesized(s, labels, chosen) && path == env.outputDir + k + ".mp4"
    {
      var i, j :| 0 <= i < |s| && 0 <= j < 4 && labels[s[i].action] in chosen &&
        (j >= 2 || SourcePath(env, s[i].videoId) in env.openable) &&
        path == env.outputDir + (AugmentedKey(s[i].videoId, j)) + ".mp4";
      assert IsAugmentedKey(s, labels, chosen, AugmentedKey(s[i].videoId, j));
    }
  }

  /**
   The driver loop: for each video whose label name is in filtered_actions,
   add the four suffixed keys with the video's action code and call the four
   transforms; count every video in processed.
   */
  method SynthesizeAugmented(annotation: seq<Entry>, labels: map<int, string>, filtered: seq<string>, env: Storage)
    returns (augmented: map<string, int>, written: seq<string>, processed: nat)
    requires Covered(annotation, labels)
    ensures augmented == Synthesized(annotation, labels, (set n | n in filtered))
    ensures written == Produced(annotation, labels, (set n | n in filtered), env)
    ensures processed == |annotation|
  {
    ghost var chosen := set n | n in filtered;
    augmented := map[];
    written := [];
    processed := 0;
    for v := 0 to |annotation|
      invariant augmented == Synthesized(annotation[..v], labels, chosen)
      invariant written == Produced(annotation[..v], labels, chosen, env)
      invariant processed == v
    {
      var videoId, action := annotation[v].videoId, annotation[v].action;
      assert annotation[..v + 1][..v] == annotation[..v];
      var path := SourcePath(env, videoId);
      if labels[action] in filtered {
        augmented := augmented[videoId + "_rotate_30" := action];
        written := written + Written(RotateVideo(path, env.outputDir, videoId, 30, env.openable));
        augmented := augmented[videoId + "_rotate_330" := action];
        written := written + Written(RotateVideo(path, env.outputDir, videoId, 330, env.openable));
        augmented := augmented[videoId + "_translate_32_0" := action];
        written := written + Written(TranslateVideo(path, env.outputDir, videoId, 32, 0));
        augmented := augmented[videoId + "_translate_-32_0" := action];
        written := written + Written(TranslateVideo(path, env.outputDir, videoId, -32, 0));
      }
      processed := processed + 1;
    }
    assert annotation[..|annotation|] == annotation;
  }

  /** What a successful run leaves: the content of the augmented annotation file, the files written, the progress count. */
  datatype Augmentation = Augmentation(annotation: map<string, int>, written: seq<string>, processed: nat)

  /**
   augmentVideo on the loaded annotation items and the raw items of the
   label file: convert the label keys, count, select the names seen at most
   Threshold times and synthesize. Either failure aborts before anything is
   written.
   */
  method AugmentVideo(annotation: seq<Entry>, labelFile: seq<(string, string)>, env: Storage)
    returns (r: Result<Augmentation, Error>)
    ensures KeysToInt(labelFile).Err? ==> r == Err(KeysToInt(labelFile).error)
    ensures KeysToInt(labelFile).Ok? ==> (r.Err? <==> !Covered(annotation, KeysToInt(labelFile).value))
    ensures KeysToInt(labelFile).Ok? && r.Err? ==>
      exists i :: 0 <= i < |annotation| && annotation[i].action !in KeysToInt(labelFile).value &&
        r.error == UnknownAction(annotation[i].action) && Covered(annotation[..i], KeysToInt(labelFile).value)
    ensures r.Ok? ==>
      KeysToInt(labelFile).Ok? && Covered(annotation, KeysToInt(labelFile).value) &&
      var labels := KeysToInt(labelFile).value;
      var chosen := SelectedNames(annotation, labels, Threshold);
      r.value == Augmentation(Synthesized(annotation, labels, chosen), Produced(annotation, labels, chosen, env), |annotation|)
  {
    var parsed := KeysToInt(labelFile);
    if parsed.Err? {
      return Err(parsed.error);
    }
    var labels := parsed.value;
    var tally := CountLabels(annotation, labels);
    if tally.Err? {
      return Err(tally.error);
    }
    CountedSelection(annotation, labels, tally.value, Threshold);
    var filtered := FilteredActions(tally.value, Threshold);
    assert (set n | n in filtered) == SelectedNames(annotation, labels, Threshold);
    var augmented, written, processed := SynthesizeAugmented(annotation, labels, filtered, env);
    r := Ok(Augmentation(augmented, written, processed));
  }

  /** Two codes with one name are counted together: two "dribble" videos exceed a threshold of 1, so nothing is added. */
  lemma MergedNamesExample()
    ensures var s := [Entry("v1", 0), Entry("v2", 1)];
      var labels := map[0 := "dribble", 1 := "dribble"];
      SelectedNames(s, labels, 1) == {} && Synthesized(s, labels, SelectedNames(s, labels, 1)) == map[]
  {
    var s := [Entry("v1", 0), Entry("v2", 1)];
    var labels := map[0 := "dribble", 1 := "dribble"];
    assert s[..1][..0] == [];
    assert s[..1] == [Entry("v1", 0)];
    assert Occurrences(s, labels, "dribble") == 2;
    assert Names(s, labels) == {"dribble"};
    assert SelectedNames(s, labels, 1) == {};
    NothingChosen(s, labels, {}, Storage("", "", {}));
  }
}
