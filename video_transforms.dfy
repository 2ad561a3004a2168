/**
 The file-naming side of rotateVideo and translateVideo (augment_videos.py).
 The frames themselves are decoded, warped and encoded by a vision library
 and are not part of this model: each call is reduced to the output path it
 opens a writer on, or to nothing when it returns before opening one.
 */
module VideoTransforms {
  import opened Wrappers
  import opened Decimal

  /** The annotation-key suffixes the driver writes, in call order. */
  const Suffixes: seq<string> := ["_rotate_30", "_rotate_330", "_translate_32_0", "_translate_-32_0"]

  /** The name ends in ".mp4". */
  predicate HasMp4Extension(name: string) {
    |name| >= 4 && name[|name| - 4..] == ".mp4"
  }

  /**
   rotateVideo(path, output_dir, video_id, degree): when the capture of path
   does not open it reports an error and returns before creating a writer;
   otherwise the writer is created on output_dir + video_id + "_rotate_<degree>.mp4".
   The capture opens exactly when path is in openable.
   */
  function RotateVideo(path: string, outputDir: string, videoId: string, degree: int, openable: set<string>): (w: Option<string>)
    ensures w.Some? <==> path in openable
    ensures w.Some? ==> outputDir + videoId + "_rotate_" <= w.value && HasMp4Extension(w.value)
  {
    if path !in openable then None
    else Some(outputDir + videoId + "_rotate_" + IntToString(degree) + ".mp4")
  }

  /**
   translateVideo(path, output_dir, video_id, (dx, dy)): there is no early
   return, so the writer on output_dir + video_id + "_translate_<dx>_<dy>.mp4"
   is created whether or not the capture opened; the frame loop then ends at
   once on a capture that did not open.
   */
  function TranslateVideo(path: string, outputDir: string, videoId: string, dx: int, dy: int): (w: Option<string>)
    ensures w.Some?
    ensures outputDir + videoId + "_translate_" <= w.value && HasMp4Extension(w.value)
  {
    Some(outputDir + videoId + "_translate_" + IntToString(dx) + "_" + IntToString(dy) + ".mp4")
  }

  /** The paths a call writes, as a sequence of zero or one. */
  function Written(w: Option<string>): seq<string> {
    if w.Some? then [w.value] else []
  }

  lemma SmallNumerals()
    ensures IntToString(0) == "0" && IntToString(30) == "30" && IntToString(330) == "330"
    ensures IntToString(32) == "32" && IntToString(-32) == "-32"
  {
    assert NatToString(3) == "3";
    assert NatToString(33) == NatToString(3) + "3";
    assert NatToString(30) == NatToString(3) + "0";
    assert NatToString(330) == NatToString(33) + "0";
    assert NatToString(32) == NatToString(3) + "2";
  }

  /** The annotation key of variant j of a video: its identifier followed by Suffixes[j]. */
  function AugmentedKey(videoId: string, j: nat): string
    requires j < 4
  {
    videoId + Suffixes[j]
  }

  /**
   The four calls of the driver write their video under the name of the
   annotation key they stand for: output_dir + key + ".mp4".
   */
  lemma OutputNamesMatchKeys(path: string, outputDir: string, videoId: string, openable: set<string>)
    ensures RotateVideo(path, outputDir, videoId, 30, openable) ==
      if path in openable then Some(outputDir + AugmentedKey(videoId, 0) + ".mp4") else None
    ensures RotateVideo(path, outputDir, videoId, 330, openable) ==
      if path in openable then Some(outputDir + AugmentedKey(videoId, 1) + ".mp4") else None
    ensures TranslateVideo(path, outputDir, videoId, 32, 0) == Some(outputDir + AugmentedKey(videoId, 2) + ".mp4")
    ensures TranslateVideo(path, outputDir, videoId, -32, 0) == Some(outputDir + AugmentedKey(videoId, 3) + ".mp4")
  {
    SmallNumerals();
    var o, v := outputDir, videoId;
    assert "_rotate_" + "30" == Suffixes[0];
    assert o + v + "_rotate_" + "30" + ".mp4" == o + (v + Suffixes[0]) + ".mp4";
    assert "_rotate_" + "330" == Suffixes[1];
    assert o + v + "_rotate_" + "330" + ".mp4" == o + (v + Suffixes[1]) + ".mp4";
    assert "_translate_" + "32" + "_" + "0" == Suffixes[2];
    assert o + v + "_translate_" + "32" + "_" + "0" + ".mp4" == o + (v + Suffixes[2]) + ".mp4";
    assert "_translate_" + "-32" + "_" + "0" == Suffixes[3];
    assert o + v + "_translate_" + "-32" + "_" + "0" + ".mp4" == o + (v + Suffixes[3]) + ".mp4";
  }

  /** Two equal strings agree on characters counted from their ends. */
  lemma EndsAgree(a: string, u: string, b: string, v: string, k: nat)
    requires a + u == b + v && k < |u| && k < |v|
    ensures u[|u| - 1 - k] == v[|v| - 1 - k]
  {
    var w := a + u;
    assert w[|w| - 1 - k] == u[|u| - 1 - k];
    assert w[|w| - 1 - k] == v[|v| - 1 - k];
  }

  /** No suffix ends another, so an augmented key determines both its video and its variant. */
  lemma AugmentedKeyInjective(a: string, s: nat, b: string, t: nat)
    requires s < 4 && t < 4
    requires AugmentedKey(a, s) == AugmentedKey(b, t)
    ensures a == b && s == t
  {
    var u, v := Suffixes[s], Suffixes[t];
    if s == t {
      assert a == (a + u)[..|a|];
      assert b == (b + v)[..|b|];
    } else if (s < 2) != (t < 2) {
      EndsAgree(a, u, b, v, 1);
    } else if s < 2 {
      EndsAgree(a, u, b, v, 2);
    } else {
      EndsAgree(a, u, b, v, 14);
    }
  }
}
