/** The on-disk layout shared by the three dump scripts: the run timestamp,
    the `k8s_dump_{timestamp}` output directory, artifact names, and the
    directory tree as a value (directories plus a path-to-content map). */
module Layout {
  import opened Wrappers
  import opened Py
  import opened Cluster

  /** A path, as the components `os.path.join` puts together. */
  type Path = seq<string>

  /** What a file holds. Text is written as is; the JSON and `str()`
      renderings are kept abstract, as the value that was rendered. */
  datatype Content =
    | Text(text: string)
    | ObjectsJson(kind: string)                     // json.dumps of every listed object of a kind
    | PodText(pod: Pod)                             // str() of a pod read from the API
    | ArgsJson(args: seq<Option<seq<string>>>)      // json.dump of a list of container args
    | AllocatableJson(maps: seq<Option<map<string, string>>>)

  /** The directories and files under the working directory. */
  datatype Disk = Disk(dirs: set<Path>, files: map<Path, Content>)

  /** The parent directory of a path. */
  function Parent(p: Path): Path
    requires |p| >= 1
  {
    p[..|p| - 1]
  }

  /** `os.path.join(dir, name)`. */
  function Child(dir: Path, name: string): (p: Path)
    ensures |p| == |dir| + 1 && Parent(p) == dir && p[|dir|] == name
    ensures p[..|dir|] == dir
  {
    dir + [name]
  }

  /** `os.makedirs(p, exist_ok=True)`: `p` and every ancestor of it become
      directories; files are untouched. */
  function MakeDirs(d: Disk, p: Path): (r: Disk)
    ensures r.files == d.files
    ensures d.dirs <= r.dirs && (|p| >= 1 ==> p in r.dirs)
  {
    assert |p| >= 1 ==> p == p[..|p|];
    Disk(d.dirs + set k | 1 <= k <= |p| :: p[..k], d.files)
  }

  /** The directories `os.makedirs` adds are exactly the non-empty prefixes
      of the path. */
  lemma MakeDirsAdds(d: Disk, p: Path, q: Path)
    ensures q in MakeDirs(d, p).dirs <==> q in d.dirs || (1 <= |q| <= |p| && q == p[..|q|])
  {
  }

  /** `open(p, "w").write(c)`: the file `p` now holds `c`. Opening a file
      needs its directory to exist. */
  function Write(d: Disk, p: Path, c: Content): Disk
    requires |p| >= 2 && Parent(p) in d.dirs
  {
    Disk(d.dirs, d.files[p := c])
  }

  /** `f"k8s_dump_{timestamp}"`. */
  function OutputDir(ts: string): string
  {
    "k8s_dump_" + ts
  }

  /** `f"{stem}_{timestamp}{ext}"`, the name of every artifact. */
  function ArtifactName(stem: string, ts: string, ext: string): string
  {
    stem + "_" + ts + ext
  }

  /** Artifact names of one run differ whenever their stems or extensions
      do, whatever the timestamp. */
  lemma ArtifactNameInjective(s1: string, s2: string, ts: string, e1: string, e2: string)
    requires e1 == ".txt" || e1 == ".json"
    requires e2 == ".txt" || e2 == ".json"
    ensures ArtifactName(s1, ts, e1) == ArtifactName(s2, ts, e2) ==> s1 == s2 && e1 == e2
  {
    var n1, n2 := ArtifactName(s1, ts, e1), ArtifactName(s2, ts, e2);
    if n1 == n2 {
      assert n1[|n1| - 1] == e1[|e1| - 1] && n2[|n2| - 1] == e2[|e2| - 1];
      assert |s1| == |s2|;
      assert s1 == n1[..|s1|] && s2 == n2[..|s2|];
    }
  }

  /** One file a script writes into its output directory: the stem and
      extension of its name, and its content. */
  datatype Artifact = Artifact(stem: string, ext: string, content: Content)

  /** Where a file goes: `os.path.join(output_dir, f"{stem}_{ts}{ext}")`. */
  function PathOf(ts: string, a: Artifact): (p: Path)
    ensures |p| == 2 && p[0] == OutputDir(ts)
  {
    [OutputDir(ts), ArtifactName(a.stem, ts, a.ext)]
  }

  /** The files as they stand after writing each one in turn with
      `open(path, "w")`: a later write to the same path replaces an earlier one. */
  function Written(ts: string, files: seq<Artifact>): map<Path, Content>
    decreases |files|
  {
    if files == [] then map[]
    else
      var last := files[|files| - 1];
      Written(ts, files[..|files| - 1])[PathOf(ts, last) := last.content]
  }

  /** Only the paths of the written files exist. */
  lemma {:induction false} WrittenPaths(ts: string, files: seq<Artifact>, p: Path)
    ensures p in Written(ts, files) <==> exists k | 0 <= k < |files| :: p == PathOf(ts, files[k])
    decreases |files|
  {
    if files != [] {
      var init := files[..|files| - 1];
      WrittenPaths(ts, init, p);
      assert forall k | 0 <= k < |init| :: init[k] == files[k];
    }
  }

  /** A file that no later file overwrites holds what was written to it. */
  lemma {:induction false} WrittenContent(ts: string, files: seq<Artifact>, i: nat)
    requires i < |files|
    requires forall j | i < j < |files| :: PathOf(ts, files[j]) != PathOf(ts, files[i])
    ensures PathOf(ts, files[i]) in Written(ts, files)
    ensures Written(ts, files)[PathOf(ts, files[i])] == files[i].content
    decreases |files|
  {
    if i < |files| - 1 {
      var init := files[..|files| - 1];
      assert init[i] == files[i];
      assert forall j | i < j < |init| :: init[j] == files[j];
      WrittenContent(ts, init, i);
    }
  }

  /** Files written to pairwise different paths all keep their content. */
  lemma WrittenDistinct(ts: string, files: seq<Artifact>)
    requires forall i, j | 0 <= i < j < |files| :: PathOf(ts, files[i]) != PathOf(ts, files[j])
    ensures forall k | 0 <= k < |files| ::
              PathOf(ts, files[k]) in Written(ts, files) && Written(ts, files)[PathOf(ts, files[k])] == files[k].content
  {
    forall k | 0 <= k < |files|
      ensures PathOf(ts, files[k]) in Written(ts, files) && Written(ts, files)[PathOf(ts, files[k])] == files[k].content
    {
      WrittenContent(ts, files, k);
    }
  }

  // ---------------------------------------------------------------------------
  // datetime.now().strftime("%Y%m%d%H%M%S")

  /** The fields of the run's local time. */
  datatype DateTime = DateTime(year: nat, month: nat, day: nat, hour: nat, minute: nat, second: nat)

  /** The range of `datetime` fields, restricted to four-digit years. */
  predicate ValidDateTime(t: DateTime)
  {
    1000 <= t.year <= 9999 && 1 <= t.month <= 12 && 1 <= t.day <= 31
    && t.hour < 24 && t.minute < 60 && t.second < 60
  }

  function Pow10(w: nat): (p: nat)
    ensures p >= 1
  {
    if w == 0 then 1 else 10 * Pow10(w - 1)
  }

  /** The `w` low decimal digits of `n`, zero-filled, most significant first. */
  function PadDigits(n: nat, w: nat): (s: string)
    ensures |s| == w
    ensures forall k | 0 <= k < |s| :: IsDigit(s[k])
  {
    if w == 0 then "" else PadDigits(n / 10, w - 1) + [DigitChar(n % 10)]
  }

  /** Reading the zero-filled digits back gives the number when it fits. */
  lemma {:induction false} ParsePadDigits(n: nat, w: nat)
    requires n < Pow10(w)
    ensures ParseNat(PadDigits(n, w)) == n
  {
    if w > 0 {
      var s := PadDigits(n, w);
      var q, r := n / 10, n % 10;
      assert n == 10 * q + r && r < 10;
      assert Pow10(w) == 10 * Pow10(w - 1);
      assert q < Pow10(w - 1);
      ParsePadDigits(q, w - 1);
      assert s[..|s| - 1] == PadDigits(q, w - 1);
      assert DigitValue(s[|s| - 1]) == r;
    }
  }

  /** `%Y%m%d%H%M%S`: a four-digit year, then two digits for each other field. */
  function Timestamp(t: DateTime): (ts: string)
    requires ValidDateTime(t)
  {
    PadDigits(t.year, 4) + PadDigits(t.month, 2) + PadDigits(t.day, 2)
    + PadDigits(t.hour, 2) + PadDigits(t.minute, 2) + PadDigits(t.second, 2)
  }

  /** Reads a `%Y%m%d%H%M%S` rendering back into its fields. */
  function ParseTimestamp(ts: string): (t: DateTime)
    requires |ts| == 14 && forall k | 0 <= k < 14 :: IsDigit(ts[k])
  {
    DateTime(ParseNat(ts[0..4]), ParseNat(ts[4..6]), ParseNat(ts[6..8]),
             ParseNat(ts[8..10]), ParseNat(ts[10..12]), ParseNat(ts[12..14]))
  }

  /** The timestamp is 14 digits wide and determines the time it renders. */
  lemma TimestampRoundTrip(t: DateTime)
    requires ValidDateTime(t)
    ensures |Timestamp(t)| == 14
    ensures forall k | 0 <= k < 14 :: IsDigit(Timestamp(t)[k])
    ensures ParseTimestamp(Timestamp(t)) == t
  {
    var ts := Timestamp(t);
    assert ts[0..4] == PadDigits(t.year, 4);
    assert ts[4..6] == PadDigits(t.month, 2);
    assert ts[6..8] == PadDigits(t.day, 2);
    assert ts[8..10] == PadDigits(t.hour, 2);
    assert ts[10..12] == PadDigits(t.minute, 2);
    assert ts[12..14] == PadDigits(t.second, 2);
    assert Pow10(2) == 100 && Pow10(4) == 10000;
    ParsePadDigits(t.year, 4);
    ParsePadDigits(t.month, 2);
    ParsePadDigits(t.day, 2);
    ParsePadDigits(t.hour, 2);
    ParsePadDigits(t.minute, 2);
    ParsePadDigits(t.second, 2);
  }
}
