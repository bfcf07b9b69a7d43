/**
 * `determine_output_paths`: picks the WAV path in the output folder and the
 * MP3 path in its `MP3_Output` sub-folder, trying `base`, `base (1)`,
 * `base (2)`, ... until the MP3 path names no existing file. The file system
 * is the finite set of paths that exist; creating the two folders is left out.
 */
module OutputPaths {
  import opened Wrappers
  import opened PyStr

  const Mp3Folder := "MP3_Output"

  /** `os.path.join(a, b)` as POSIX Python computes it: an absolute `b` replaces `a`. */
  function PathJoin(a: string, b: string): string
  {
    if |b| > 0 && b[0] == '/' then b
    else if a == "" || a[|a| - 1] == '/' then a + b
    else a + "/" + b
  }

  /** `file_base_path`: where the WAV file goes, before any counter. */
  function WavBase(folder: string, filenameBase: string): string
  {
    PathJoin(folder, filenameBase)
  }

  /** `mp3_base_path`: where the MP3 file goes, before any counter. */
  function Mp3Base(folder: string, filenameBase: string): string
  {
    PathJoin(PathJoin(folder, Mp3Folder), filenameBase)
  }

  /** What try number `n` adds to the base: nothing for the first, ` (n)` after it. */
  function CounterSuffix(n: nat): string
  {
    if n == 0 then "" else " (" + Decimal(n) + ")"
  }

  /** The path tried `n`-th (counting from 0) with extension `ext`. */
  function Candidate(base: string, n: nat, ext: string): string
  {
    base + CounterSuffix(n) + ext
  }

  /** Different tries give different paths, so the loop never asks about the same path twice. */
  lemma CandidateInjective(base: string, m: nat, n: nat, ext: string)
    requires Candidate(base, m, ext) == Candidate(base, n, ext)
    ensures m == n
  {
    var s := Candidate(base, m, ext);
    var sm, sn := CounterSuffix(m), CounterSuffix(n);
    assert |sm| == |sn|;
    assert sm == s[|base|..|base| + |sm|];
    assert sn == s[|base|..|base| + |sn|];
    if m != 0 && n != 0 {
      assert Decimal(m) == sm[2..|sm| - 1];
      assert Decimal(n) == sn[2..|sn| - 1];
      DecimalInjective(m, n);
    }
  }

  /** The f-string `f"{base} ({n}){ext}"` spells try number `n`. */
  lemma CandidateSpelling(base: string, n: nat, ext: string, tail: string)
    requires n >= 1 && tail == [')'] + ext
    ensures base + " (" + IntString(n) + tail == Candidate(base, n, ext)
  {
    assert IntString(n) == Decimal(n);
  }

  /** The first `n` tries all name existing files. */
  ghost predicate FirstTriesTaken(existing: set<string>, base: string, n: nat)
  {
    forall j :: 0 <= j < n ==> Candidate(base, j, ".mp3") in existing
  }

  /**
   * The first `n` tries are `n` different paths, so they can all be taken
   * only when at least `n` paths exist: the search cannot run past `|existing|`.
   */
  lemma {:induction false} FirstTriesBounded(existing: set<string>, base: string, n: nat)
    requires FirstTriesTaken(existing, base, n)
    ensures n <= |existing|
  {
    if n > 0 {
      var c := Candidate(base, n - 1, ".mp3");
      forall j | 0 <= j < n - 1 ensures Candidate(base, j, ".mp3") in existing - {c} {
        if Candidate(base, j, ".mp3") == c {
          CandidateInjective(base, j, n - 1, ".mp3");
        }
      }
      FirstTriesBounded(existing - {c}, base, n - 1);
    }
  }

  /**
   * The search as the source runs it. The MP3 path returned names no existing
   * file and is the first free one of `base.mp3`, `base (1).mp3`, ...; the WAV
   * path carries the same counter suffix on the WAV base.
   */
  method DetermineOutputPaths(folder: string, filenameBase: string, existing: set<string>)
    returns (wavOutput: string, mp3Output: string)
    ensures mp3Output !in existing
    ensures exists n: nat ::
              && wavOutput == Candidate(WavBase(folder, filenameBase), n, ".wav")
              && mp3Output == Candidate(Mp3Base(folder, filenameBase), n, ".mp3")
              && forall j :: 0 <= j < n ==> Candidate(Mp3Base(folder, filenameBase), j, ".mp3") in existing
  {
    var mp3FolderPath := PathJoin(folder, Mp3Folder);
    var fileBasePath := PathJoin(folder, filenameBase);
    var mp3BasePath := PathJoin(mp3FolderPath, filenameBase);
    wavOutput := fileBasePath + ".wav";
    mp3Output := mp3BasePath + ".mp3";
    var counter := 1;
    while mp3Output in existing
      invariant 1 <= counter <= |existing| + 1
      invariant wavOutput == Candidate(fileBasePath, counter - 1, ".wav")
      invariant mp3Output == Candidate(mp3BasePath, counter - 1, ".mp3")
      invariant FirstTriesTaken(existing, mp3BasePath, counter - 1)
      decreases |existing| + 1 - counter
    {
      assert FirstTriesTaken(existing, mp3BasePath, counter);
      FirstTriesBounded(existing, mp3BasePath, counter);
      CandidateSpelling(fileBasePath, counter, ".wav", ").wav");
      CandidateSpelling(mp3BasePath, counter, ".mp3", ").mp3");
      wavOutput := fileBasePath + " (" + IntString(counter) + ").wav";
      mp3Output := mp3BasePath + " (" + IntString(counter) + ").mp3";
      counter := counter + 1;
    }
    assert fileBasePath == WavBase(folder, filenameBase) && mp3BasePath == Mp3Base(folder, filenameBase);
    assert FirstTriesTaken(existing, mp3BasePath, counter - 1);
  }

  /** An MP3 try never names the same file as a WAV try. */
  lemma ExtensionsDiffer(mp3Base: string, wavBase: string)
    ensures Candidate(mp3Base, 0, ".mp3") != Candidate(wavBase, 0, ".wav")
  {
    var m, w := Candidate(mp3Base, 0, ".mp3"), Candidate(wavBase, 0, ".wav");
    assert m[|m| - 1] == '3' && w[|w| - 1] == 'v';
  }

  /**
   * Only the MP3 path is tested: when the one existing file is `base.wav`,
   * the search still returns `base.wav` as the WAV path, which the caller
   * then overwrites.
   */
  method WavPathNotChecked(folder: string, filenameBase: string)
    returns (wavOutput: string, mp3Output: string)
    ensures wavOutput == Candidate(WavBase(folder, filenameBase), 0, ".wav")
    ensures mp3Output == Candidate(Mp3Base(folder, filenameBase), 0, ".mp3")
  {
    var wav := Candidate(WavBase(folder, filenameBase), 0, ".wav");
    var b := Mp3Base(folder, filenameBase);
    wavOutput, mp3Output := DetermineOutputPaths(folder, filenameBase, {wav});
    var n: nat :| && wavOutput == Candidate(WavBase(folder, filenameBase), n, ".wav")
                  && mp3Output == Candidate(b, n, ".mp3")
                  && forall j :: 0 <= j < n ==> Candidate(b, j, ".mp3") in {wav};
    ExtensionsDiffer(b, WavBase(folder, filenameBase));
    if n > 0 {
      assert false;
    }
  }

  /** The ways the source's own `determine_output_paths` ends. */
  datatype PyError = NameError(name: string)

  /**
   * `determine_output_paths` as written: the search loop runs and ends, and
   * the `return` then reads `mp3_path`, a name bound nowhere in the function,
   * so every call raises `NameError`.
   */
  method DetermineOutputPathsAsWritten(folder: string, filenameBase: string, existing: set<string>)
    returns (r: Result<(string, string), PyError>)
    ensures r == Failure(NameError("mp3_path"))
  {
    var wavOutput, mp3Output := DetermineOutputPaths(folder, filenameBase, existing);
    r := Failure(NameError("mp3_path"));
  }

  /**
   * With the first `k` tries taken (`base.mp3`, `base (1).mp3`, ...,
   * `base (k-1).mp3`) the search settles on try `k`: ` (1)` when only the plain
   * name is taken, ` (5)` when the plain name and ` (1)` to ` (4)` are.
   */
  method FirstFreeAfterTaken(folder: string, filenameBase: string, k: nat)
    returns (wavOutput: string, mp3Output: string)
    ensures wavOutput == Candidate(WavBase(folder, filenameBase), k, ".wav")
    ensures mp3Output == Candidate(Mp3Base(folder, filenameBase), k, ".mp3")
  {
    var b := Mp3Base(folder, filenameBase);
    var taken := set j | 0 <= j < k :: Candidate(b, j, ".mp3");
    wavOutput, mp3Output := DetermineOutputPaths(folder, filenameBase, taken);
    var n: nat :| && wavOutput == Candidate(WavBase(folder, filenameBase), n, ".wav")
                  && mp3Output == Candidate(b, n, ".mp3")
                  && forall j :: 0 <= j < n ==> Candidate(b, j, ".mp3") in taken;
    if n < k {
      assert false;
    } else if n > k {
      assert Candidate(b, k, ".mp3") in taken;
      var j :| 0 <= j < k && Candidate(b, k, ".mp3") == Candidate(b, j, ".mp3");
      CandidateInjective(b, k, j, ".mp3");
    }
  }
}
