/** The output layout of the pipeline under an input directory: a working
    tree for intermediate files and an assets tree mirroring what is
    published.  A path is the sequence of its components, and `/` appends
    one. */
module Paths {
  import opened Prelude
  import opened Text

  type Path = seq<string>

  function Child(dir: Path, name: string): Path {
    dir + [name]
  }

  /** `BirdbirdPaths`. */
  datatype BirdbirdPaths = BirdbirdPaths(
    inputDir: Path,
    birdbirdDir: Path,
    workingDir: Path,
    filterDir: Path,
    clipsDir: Path,
    detectionsJson: Path,
    framesWorkingDir: Path,
    framesCandidatesDir: Path,
    frameScoresJson: Path,
    assetsDir: Path,
    highlightsMp4: Path,
    metadataJson: Path,
    songsJson: Path,
    speciesJson: Path,
    songClipsDir: Path)

  /** `BirdbirdPaths.from_input_dir`. */
  function FromInputDir(inputDir: Path): (p: BirdbirdPaths)
    ensures p.inputDir == inputDir && p.birdbirdDir == inputDir + ["birdbird"]
    ensures p.workingDir == p.birdbirdDir + ["working"] && p.assetsDir == p.birdbirdDir + ["assets"]
    ensures p.filterDir == p.workingDir + ["filter"] && p.framesWorkingDir == p.workingDir + ["frames"]
    ensures p.clipsDir == p.filterDir + ["clips"] && p.detectionsJson == p.filterDir + ["detections.json"]
    ensures p.framesCandidatesDir == p.framesWorkingDir + ["candidates"]
    ensures p.frameScoresJson == p.framesWorkingDir + ["frame_scores.json"]
    ensures p.highlightsMp4 == p.assetsDir + ["highlights.mp4"] && p.metadataJson == p.assetsDir + ["metadata.json"]
    ensures p.songsJson == p.assetsDir + ["songs.json"] && p.speciesJson == p.assetsDir + ["species.json"]
    ensures p.songClipsDir == p.assetsDir + ["song_clips"]
  {
    var birdbirdDir := Child(inputDir, "birdbird");
    var workingDir := Child(birdbirdDir, "working");
    var filterDir := Child(workingDir, "filter");
    var framesWorkingDir := Child(workingDir, "frames");
    var assetsDir := Child(birdbirdDir, "assets");
    BirdbirdPaths(
      inputDir, birdbirdDir, workingDir, filterDir,
      Child(filterDir, "clips"), Child(filterDir, "detections.json"),
      framesWorkingDir, Child(framesWorkingDir, "candidates"), Child(framesWorkingDir, "frame_scores.json"),
      assetsDir, Child(assetsDir, "highlights.mp4"), Child(assetsDir, "metadata.json"),
      Child(assetsDir, "songs.json"), Child(assetsDir, "species.json"), Child(assetsDir, "song_clips"))
  }

  predicate Under(p: Path, dir: Path) {
    |dir| < |p| && p[..|dir|] == dir
  }

  /** The paths `from_input_dir` creates below the `birdbird` directory. */
  function Layout(p: BirdbirdPaths): seq<Path> {
    [p.workingDir, p.filterDir, p.clipsDir, p.detectionsJson, p.framesWorkingDir,
     p.framesCandidatesDir, p.frameScoresJson, p.assetsDir, p.highlightsMp4,
     p.metadataJson, p.songsJson, p.speciesJson, p.songClipsDir]
  }

  /** The working files: everything under `working`. */
  function WorkingFiles(p: BirdbirdPaths): seq<Path> {
    [p.filterDir, p.clipsDir, p.detectionsJson, p.framesWorkingDir, p.framesCandidatesDir, p.frameScoresJson]
  }

  /** The published files: everything under `assets`. */
  function AssetFiles(p: BirdbirdPaths): seq<Path> {
    [p.highlightsMp4, p.metadataJson, p.songsJson, p.speciesJson, p.songClipsDir]
  }

  /** Everything lies under the `birdbird` directory, which lies directly
      in the input directory. */
  lemma LayoutUnderBirdbird(inputDir: Path)
    ensures var p := FromInputDir(inputDir);
            && p.birdbirdDir == inputDir + ["birdbird"]
            && forall x :: x in Layout(p) ==> Under(x, p.birdbirdDir)
  {
    var p := FromInputDir(inputDir);
    forall x | x in Layout(p) ensures Under(x, p.birdbirdDir) {
      assert x[..|p.birdbirdDir|] == p.birdbirdDir;
    }
  }

  /** The working files lie under `working` and not under `assets`; the
      published files lie directly in `assets` and not under `working`. */
  lemma LayoutTreesDisjoint(inputDir: Path)
    ensures var p := FromInputDir(inputDir);
            && (forall x :: x in WorkingFiles(p) ==> Under(x, p.workingDir) && !Under(x, p.assetsDir))
            && (forall x :: x in AssetFiles(p) ==> Under(x, p.assetsDir) && !Under(x, p.workingDir) && |x| == |p.assetsDir| + 1)
  {
    var p := FromInputDir(inputDir);
    forall x | x in WorkingFiles(p) ensures Under(x, p.workingDir) && !Under(x, p.assetsDir) {
      OnlyUnder(x, p.workingDir, p.assetsDir);
    }
    forall x | x in AssetFiles(p) ensures Under(x, p.assetsDir) && !Under(x, p.workingDir) {
      OnlyUnder(x, p.assetsDir, p.workingDir);
    }
  }

  /** A path under one of two sibling directories is not under the other. */
  lemma OnlyUnder(x: Path, dir: Path, sibling: Path)
    requires |dir| == |sibling| >= 1 && dir[..|dir| - 1] == sibling[..|dir| - 1]
    requires dir[|dir| - 1] != sibling[|dir| - 1]
    requires |dir| < |x| && x[..|dir|] == dir
    ensures Under(x, dir) && !Under(x, sibling)
  {
    assert x[|dir| - 1] == dir[|dir| - 1];
  }

  /** No two paths of the layout coincide. */
  lemma LayoutDistinct(inputDir: Path)
    ensures var all := Layout(FromInputDir(inputDir));
            forall i, j :: 0 <= i < j < |all| ==> all[i] != all[j]
  {
    var p := FromInputDir(inputDir);
    var n := |inputDir| + 1;
    var all := Layout(p);
    var rel := [["working"], ["working", "filter"], ["working", "filter", "clips"],
                ["working", "filter", "detections.json"], ["working", "frames"],
                ["working", "frames", "candidates"], ["working", "frames", "frame_scores.json"],
                ["assets"], ["assets", "highlights.mp4"], ["assets", "metadata.json"],
                ["assets", "songs.json"], ["assets", "species.json"], ["assets", "song_clips"]];
    assert forall k :: 0 <= k < |all| ==> all[k] == p.birdbirdDir + rel[k];
    forall i, j | 0 <= i < j < |all| ensures all[i] != all[j] {
      assert all[i][n..] == rel[i] && all[j][n..] == rel[j];
      assert rel[i] != rel[j];
    }
  }

  // ---------------------------------------------------------------------
  // get_asset_frame_paths
  // ---------------------------------------------------------------------

  function FrameName(i: nat): string {
    "frame_" + ZeroPad(i, 2) + ".jpg"
  }

  /** `get_asset_frame_paths`: `frame_01.jpg` up to `frame_<top_n>.jpg` in
      the assets directory, none when `top_n` is not positive. */
  function AssetFramePaths(assetsDir: Path, topN: int): (r: seq<Path>)
    ensures |r| == if topN > 0 then topN else 0
    ensures forall k :: 0 <= k < |r| ==> r[k] == assetsDir + [FrameName(k + 1)]
    decreases if topN > 0 then topN else 0
  {
    if topN <= 0 then [] else AssetFramePaths(assetsDir, topN - 1) + [Child(assetsDir, FrameName(topN))]
  }

  /** The frame names are distinct, and each reads back as its rank:
      the digits between `frame_` and `.jpg` are the number it was made
      from. */
  lemma FrameNamesDistinct(assetsDir: Path, topN: int)
    ensures var r := AssetFramePaths(assetsDir, topN);
            forall i, j :: 0 <= i < j < |r| ==> r[i] != r[j]
  {
    var r := AssetFramePaths(assetsDir, topN);
    forall i, j | 0 <= i < j < |r| ensures r[i] != r[j] {
      FrameNameInjective(i + 1, j + 1);
      assert r[i][|assetsDir|] == FrameName(i + 1);
      assert r[j][|assetsDir|] == FrameName(j + 1);
    }
  }

  lemma FrameNameInjective(a: nat, b: nat)
    requires a != b
    ensures FrameName(a) != FrameName(b)
  {
    FrameNameRank(a);
    FrameNameRank(b);
  }

  /** The rank written into a frame name reads back with `int`. */
  lemma FrameNameRank(i: nat)
    ensures var name := FrameName(i);
            |name| >= 10 && ParseInt(name[6..|name| - 4]) == Some(i as int)
  {
    var digits := ZeroPad(i, 2);
    ZeroPadRoundTrip(i, 2);
    ParseIntRoundTrip(i, 2);
    var name := FrameName(i);
    assert name[6..|name| - 4] == digits;
  }

  // ---------------------------------------------------------------------
  // load_detections
  // ---------------------------------------------------------------------

  datatype PathsError = DetectionsNotFound(path: Path)

  /** `load_detections`: the parsed file, or an error naming the file when
      it does not exist. */
  function LoadDetections<J>(path: Path, fileExists: bool, contents: J): (r: Result<J, PathsError>)
    ensures r.Err? <==> !fileExists
    ensures r.Err? ==> r.error.path == path
    ensures r.Ok? ==> r.value == contents
  {
    if !fileExists then Err(DetectionsNotFound(path)) else Ok(contents)
  }
}
