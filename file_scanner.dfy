/**
 * The content scanner: an extension heuristic that rejects high-risk names outright, then a
 * ClamAV run whose exit code and output decide the verdict, with a fail-open fallback when
 * ClamAV cannot be run. As written, that fallback is missed when clamscan cannot be started
 * (`ScanFileAsWritten`). Process spawning, temp-file I/O and the MIME lookup are inputs here.
 */
module FileScanner {

  import opened Common

  datatype ScanDetails = ScanDetails(fileType: Option<string>, signature: Option<string>, scanDuration: Option<int>)

  datatype ScanResult = ScanResult(isClean: bool, threat: Option<string>, error: Option<string>, details: Option<ScanDetails>)

  const HighRiskExtensions: seq<string> := [
    ".exe", ".dll", ".bat", ".cmd", ".ps1", ".vbs", ".js",
    ".jar", ".sh", ".app", ".com", ".scr", ".msi"
  ]

  // ---------------------------------------------------------------------------
  // Extension heuristic

  /** `filename.toLowerCase().slice(filename.lastIndexOf('.'))`: without a '.', the slice keeps the last character. */
  function Extension(filename: string): (r: string)
    ensures EndsWith(ToLower(filename), r)
    ensures '.' in filename ==> |r| >= 1 && r[0] == '.' && '.' !in r[1..]
    ensures '.' !in filename ==> |r| == if filename == [] then 0 else 1
  {
    Slice(ToLower(filename), LastIndexOf(filename, '.'))
  }

  /** `isHighRiskFile`: the lower-cased name ends with one of the listed extensions. */
  function IsHighRiskFile(filename: string): (b: bool)
    ensures b <==> exists e :: e in HighRiskExtensions && EndsWith(ToLower(filename), e)
  {
    ListedExtensionIffSuffix(filename);
    Extension(filename) in HighRiskExtensions
  }

  /** Every listed extension is a '.' followed by at least two characters, none of them a '.'. */
  lemma ExtensionShape(e: string)
    requires e in HighRiskExtensions
    ensures |e| >= 3 && e[0] == '.' && '.' !in e[1..]
  {
  }

  lemma LastIndexOfIs(s: string, c: char, k: int)
    requires 0 <= k < |s| && s[k] == c && c !in s[k + 1..]
    ensures LastIndexOf(s, c) == k
  {
  }

  /** Folding case neither creates nor removes a '.'. */
  lemma LowerCharDot(c: char)
    ensures LowerChar(c) == '.' <==> c == '.'
  {
  }

  /** A name without a '.' is never high-risk. */
  lemma {:induction false} NoDotNeverHighRisk(filename: string)
    requires '.' !in filename
    ensures !IsHighRiskFile(filename)
  {
    var ext := Extension(filename);
    assert |ext| <= 1;
    if ext in HighRiskExtensions {
      ExtensionShape(ext);
    }
  }

  /** The test on the extension `slice` cut off is a suffix test on the lower-cased name. */
  lemma {:induction false} ListedExtensionIffSuffix(filename: string)
    ensures Extension(filename) in HighRiskExtensions <==> exists e :: e in HighRiskExtensions && EndsWith(ToLower(filename), e)
  {
    var lower := ToLower(filename);
    if e :| e in HighRiskExtensions && EndsWith(lower, e) {
      ExtensionShape(e);
      var k := |filename| - |e|;
      assert lower[k..] == e;
      assert lower[k] == '.';
      LowerCharDot(filename[k]);
      forall j | k < j < |filename| ensures filename[j] != '.' {
        assert lower[j] == e[j - k];
        assert e[j - k] in e[1..];
        LowerCharDot(filename[j]);
      }
      LastIndexOfIs(filename, '.', k);
      assert Extension(filename) == e;
    }
  }

  /** The check is case-insensitive: a name and its lower-case form get the same answer. */
  lemma CaseInsensitive(filename: string)
    ensures IsHighRiskFile(filename) == IsHighRiskFile(ToLower(filename))
  {
    ToLowerIdempotent(filename);
  }

  lemma HighRiskExamples()
    ensures IsHighRiskFile("setup.EXE")
    ensures !IsHighRiskFile("report.pdf") && !IsHighRiskFile("exe")
  {
    SetupExeSuffix();
    ReportPdfExtension();
    NoDotNeverHighRisk("exe");
  }

  lemma SetupExeSuffix()
    ensures ".exe" in HighRiskExtensions && EndsWith(ToLower("setup.EXE"), ".exe")
  {
    assert ToLower("setup.EXE") == "setup.exe";
  }

  lemma ReportPdfExtension()
    ensures Extension("report.pdf") == ".pdf" && ".pdf" !in HighRiskExtensions
  {
    LastIndexOfIs("report.pdf", '.', 6);
  }

  /** `validateFileType`: the heuristic verdict, with the looked-up MIME type or a generic one. */
  function ValidateFileType(originalName: string, lookedUp: Option<string>): (r: ScanResult)
    ensures r.isClean <==> !IsHighRiskFile(originalName)
    ensures r.threat.Some? <==> IsHighRiskFile(originalName)
    ensures r.error == None
    ensures r.details.Some? && r.details.value.fileType == Some(OrElse(lookedUp, "application/octet-stream"))
  {
    var isHighRisk := IsHighRiskFile(originalName);
    ScanResult(
      !isHighRisk,
      if isHighRisk then Some("High-risk file type detected") else None,
      None,
      Some(ScanDetails(
        Some(OrElse(lookedUp, "application/octet-stream")),
        Some(if isHighRisk then "High-risk extension" else "File type validation"),
        None)))
  }

  // ---------------------------------------------------------------------------
  // Threat-name extraction: the first match of the pattern `: (.+) FOUND`

  /** The characters `.` does not match in a JavaScript regular expression. */
  predicate IsLineTerminator(c: char) {
    c == '\n' || c == '\r' || c == '\U{2028}' || c == '\U{2029}'
  }

  predicate NoLineTerminator(s: string) {
    forall k :: 0 <= k < |s| ==> !IsLineTerminator(s[k])
  }

  predicate FoundAt(s: string, j: int) {
    0 <= j && j + 6 <= |s| && s[j..j + 6] == " FOUND"
  }

  /** The pattern matches s[i..j + 6], its group being the non-empty s[i + 2..j]. */
  predicate MatchAt(s: string, i: int, j: int) {
    0 <= i && i + 2 < j && FoundAt(s, j) && s[i..i + 2] == ": " && NoLineTerminator(s[i + 2..j])
  }

  /** The first line terminator at or after p, or |s|. */
  function RunEnd(s: string, p: nat): (e: nat)
    requires p <= |s|
    ensures p <= e <= |s|
    ensures NoLineTerminator(s[p..e])
    ensures e < |s| ==> IsLineTerminator(s[e])
    decreases |s| - p
  {
    if p == |s| || IsLineTerminator(s[p]) then p
    else
      var e := RunEnd(s, p + 1);
      assert s[p..e] == [s[p]] + s[p + 1..e];
      e
  }

  /** The largest j in [lo, hi] with " FOUND" at j: the greedy group backtracks from the right. */
  function LastFoundIn(s: string, lo: nat, hi: int): (r: Option<nat>)
    ensures r.Some? ==> lo <= r.value <= hi && FoundAt(s, r.value)
    ensures r.Some? ==> forall j :: r.value < j <= hi ==> !FoundAt(s, j)
    ensures r.None? ==> forall j :: lo <= j <= hi ==> !FoundAt(s, j)
    decreases if hi < lo then 0 else hi - lo + 1
  {
    if hi < lo then None
    else if FoundAt(s, hi) then Some(hi)
    else LastFoundIn(s, lo, hi - 1)
  }

  lemma MatchAtBound(s: string, i: nat, j: int)
    requires i + 2 <= |s| && s[i..i + 2] == ": "
    ensures MatchAt(s, i, j) <==> i + 3 <= j <= RunEnd(s, i + 2) && FoundAt(s, j)
  {
    var e := RunEnd(s, i + 2);
    if i + 3 <= j <= e && FoundAt(s, j) {
      forall m | i + 2 <= m < j ensures !IsLineTerminator(s[m]) {
        assert s[m] == s[i + 2..e][m - (i + 2)];
      }
      assert NoLineTerminator(s[i + 2..j]);
    }
    if MatchAt(s, i, j) {
      forall m | i + 2 <= m < j ensures !IsLineTerminator(s[m]) {
        assert s[m] == s[i + 2..j][m - (i + 2)];
      }
    }
  }

  /** The greedy end of the group for a match starting at i. */
  function MatchEnd(s: string, i: nat): (r: Option<nat>)
    ensures r.Some? ==> MatchAt(s, i, r.value)
    ensures r.Some? ==> forall j :: MatchAt(s, i, j) ==> j <= r.value
    ensures r.None? ==> forall j :: !MatchAt(s, i, j)
  {
    if i + 2 <= |s| && s[i..i + 2] == ": " then
      var r := LastFoundIn(s, i + 3, RunEnd(s, i + 2));
      assert forall j :: MatchAt(s, i, j) <==> i + 3 <= j <= RunEnd(s, i + 2) && FoundAt(s, j) by {
        forall j { MatchAtBound(s, i, j); }
      }
      r
    else None
  }

  /** The leftmost start at or after i that has a match, with its greedy end. */
  function FirstMatch(s: string, i: nat): (r: Option<(nat, nat)>)
    requires i <= |s|
    ensures r.Some? ==> i <= r.value.0 && MatchAt(s, r.value.0, r.value.1)
    ensures r.Some? ==> forall j :: MatchAt(s, r.value.0, j) ==> j <= r.value.1
    ensures r.Some? ==> forall i', j :: i <= i' < r.value.0 ==> !MatchAt(s, i', j)
    ensures r.None? ==> forall i', j :: i <= i' ==> !MatchAt(s, i', j)
    decreases |s| - i
  {
    if i == |s| then None
    else match MatchEnd(s, i)
      case Some(j) => Some((i, j))
      case None => FirstMatch(s, i + 1)
  }

  /** The group of the first match of `: (.+) FOUND` in the ClamAV output, if any. */
  function ExtractThreat(output: string): (r: Option<string>)
    ensures r.None? <==> forall i, j :: !MatchAt(output, i, j)
    ensures r.Some? ==> exists i, j ::
      && MatchAt(output, i, j)
      && r.value == output[i + 2..j]
      && (forall i', j' :: 0 <= i' < i ==> !MatchAt(output, i', j'))
      && (forall j' :: MatchAt(output, i, j') ==> j' <= j)
  {
    match FirstMatch(output, 0)
    case Some(m) => Some(output[m.0 + 2..m.1])
    case None => None
  }

  lemma {:induction false} ThreatIsLeftmostGreedyGroup(output: string, i: nat, j: nat)
    requires MatchAt(output, i, j)
    requires forall i', j' :: 0 <= i' < i ==> !MatchAt(output, i', j')
    requires forall j' :: MatchAt(output, i, j') ==> j' <= j
    ensures ExtractThreat(output) == Some(output[i + 2..j])
  {
    var m := FirstMatch(output, 0);
    assert m.Some?;
  }

  /** The threat name ClamAV reported, or "Unknown threat" when its output does not match. */
  function ThreatName(output: string): (r: string)
    ensures (forall i, j :: !MatchAt(output, i, j)) ==> r == "Unknown threat"
    ensures r == "Unknown threat" || exists i, j :: MatchAt(output, i, j) && r == output[i + 2..j]
  {
    match ExtractThreat(output)
    case Some(t) => t
    case None => "Unknown threat"
  }

  // ---------------------------------------------------------------------------
  // The ClamAV verdict

  /** How clamscan ended: its exit code (None when it was killed by a signal) and what it wrote. */
  datatype ClamExit = ClamExit(code: Option<int>, stdout: string, stderr: string)

  /** The 'close' handler of `scanWithClamAV`: exit code 0 is clean, 1 is a threat, anything else an error. */
  function ClamAVVerdict(exit: ClamExit): (r: ScanResult)
    ensures r.isClean <==> exit.code == Some(0)
    ensures r.isClean ==> r.threat == None && r.error == None
    ensures r.details.Some? && r.details.value.fileType == None && r.details.value.scanDuration == Some(0)
    ensures exit.code == Some(0) ==> r.details.value.signature == Some("ClamAV scan passed")
    ensures exit.code == Some(1) ==> r.threat == Some(ThreatName(exit.stdout)) && r.error == None
    ensures exit.code == Some(1) ==> r.details.value.signature == Some(Trim(exit.stdout))
    ensures exit.code != Some(0) && exit.code != Some(1) ==>
      && r.threat == None
      && r.error == Some(if exit.stderr != "" then exit.stderr else "ClamAV scan failed")
      && r.details.value.signature == Some("Scan error")
  {
    if exit.code == Some(0) then
      ScanResult(true, None, None, Some(ScanDetails(None, Some("ClamAV scan passed"), Some(0))))
    else if exit.code == Some(1) then
      ScanResult(false, Some(ThreatName(exit.stdout)), None, Some(ScanDetails(None, Some(Trim(exit.stdout)), Some(0))))
    else
      ScanResult(false, None, Some(if exit.stderr != "" then exit.stderr else "ClamAV scan failed"),
                 Some(ScanDetails(None, Some("Scan error"), Some(0))))
  }

  /** `scanWithClamAV`: accumulate the stdout and stderr chunks, then decide on the exit code. */
  method ScanWithClamAV(stdoutChunks: seq<string>, stderrChunks: seq<string>, code: Option<int>) returns (r: ScanResult)
    ensures r == ClamAVVerdict(ClamExit(code, Concat(stdoutChunks), Concat(stderrChunks)))
  {
    var output := "";
    var error := "";
    var i := 0;
    while i < |stdoutChunks|
      invariant 0 <= i <= |stdoutChunks|
      invariant output == Concat(stdoutChunks[..i])
    {
      assert stdoutChunks[..i + 1][..i] == stdoutChunks[..i];
      output := output + stdoutChunks[i];
      i := i + 1;
    }
    assert stdoutChunks[..i] == stdoutChunks;
    i := 0;
    while i < |stderrChunks|
      invariant 0 <= i <= |stderrChunks|
      invariant error == Concat(stderrChunks[..i])
    {
      assert stderrChunks[..i + 1][..i] == stderrChunks[..i];
      error := error + stderrChunks[i];
      i := i + 1;
    }
    assert stderrChunks[..i] == stderrChunks;
    r := ClamAVVerdict(ClamExit(code, output, error));
  }

  // ---------------------------------------------------------------------------
  // scanFile

  /** Writing the payload to the temp file either finishes or fails with a thrown value (an Error's message, or None). */
  datatype TempWrite = Written | WriteFailed(message: Option<string>)

  /**
   * How the ClamAV call ended: clamscan ran and exited; `spawn` threw at once, inside the promise's
   * executor, which rejects the promise; or `spawn` reported a clamscan it could not start (missing
   * or not executable) the way Node reports it, as an 'error' event on the child process.
   */
  datatype ClamRun = Exited(exit: ClamExit) | SpawnThrew | SpawnError

  /** The result `scanFile` falls back to when ClamAV could not be run. */
  const BasicValidation := ScanResult(true, None, None, Some(ScanDetails(None, Some("Basic validation (ClamAV unavailable)"), Some(0))))

  /**
   * The result `scanFile` returns, for the given outcomes of its I/O steps and the elapsed ClamAV
   * time, with the fallback its comment promises for every ClamAV run that could not start. As
   * written, a clamscan that cannot be started escapes the fallback: see `ScanFileAsWritten`.
   */
  function ScanFileResult(write: TempWrite, originalName: Option<string>, lookedUp: Option<string>, clam: ClamRun, elapsed: int): (r: ScanResult)
    ensures r.isClean ==> r.threat == None && r.error == None
    ensures write.WriteFailed? ==>
      r == ScanResult(false, None, Some(if write.message.Some? then write.message.value else "Unknown error during scan"),
                      Some(ScanDetails(None, Some("Scan error"), Some(0))))
    ensures write.Written? && Truthy(originalName) && IsHighRiskFile(originalName.value) ==>
      r == ValidateFileType(originalName.value, lookedUp)
    ensures write.Written? && !(Truthy(originalName) && IsHighRiskFile(originalName.value)) && !clam.Exited? ==>
      r == BasicValidation
    ensures write.Written? && !(Truthy(originalName) && IsHighRiskFile(originalName.value)) && clam.Exited? ==>
      var v := ClamAVVerdict(clam.exit);
      r == v.(details := Some(v.details.value.(scanDuration := Some(elapsed))))
  {
    match write
    case WriteFailed(message) =>
      ScanResult(false, None, Some(if message.Some? then message.value else "Unknown error during scan"),
                 Some(ScanDetails(None, Some("Scan error"), Some(0))))
    case Written =>
      if Truthy(originalName) && !ValidateFileType(originalName.value, lookedUp).isClean then
        ValidateFileType(originalName.value, lookedUp)
      else
        match clam
        case SpawnThrew | SpawnError => BasicValidation
        case Exited(exit) =>
          var v := ClamAVVerdict(exit);
          v.(details := Some(ScanDetails(v.details.value.fileType, v.details.value.signature, Some(elapsed))))
  }

  /** A high-risk name is rejected without looking at what ClamAV would have said. */
  lemma HighRiskSkipsClamAV(name: string, lookedUp: Option<string>, clam1: ClamRun, clam2: ClamRun, e1: int, e2: int)
    requires IsHighRiskFile(name)
    ensures ScanFileResult(Written, Some(name), lookedUp, clam1, e1) == ScanFileResult(Written, Some(name), lookedUp, clam2, e2)
    ensures !ScanFileResult(Written, Some(name), lookedUp, clam1, e1).isClean
  {
    if name == "" {
      NoDotNeverHighRisk(name);
    }
  }

  /** What a call of `scanFile` comes to: the result its promise resolves to, or an uncaught exception. */
  datatype ScanOutcome = Resolved(result: ScanResult) | Uncaught

  /**
   * `scanFile` as written. `scanWithClamAV` listens only for 'data' and 'close', so the 'error'
   * event of a clamscan that cannot be started has no listener and is thrown as an uncaught
   * exception: its promise never settles and neither `catch` of `scanFile` sees it.
   */
  function ScanFileAsWritten(write: TempWrite, originalName: Option<string>, lookedUp: Option<string>, clam: ClamRun, elapsed: int): (o: ScanOutcome)
    ensures o.Uncaught? <==> write.Written? && !(Truthy(originalName) && IsHighRiskFile(originalName.value)) && clam.SpawnError?
    ensures o.Resolved? ==> o.result == ScanFileResult(write, originalName, lookedUp, clam, elapsed)
  {
    match write
    case WriteFailed(_) => Resolved(ScanFileResult(write, originalName, lookedUp, clam, elapsed))
    case Written =>
      if Truthy(originalName) && !ValidateFileType(originalName.value, lookedUp).isClean then
        Resolved(ValidateFileType(originalName.value, lookedUp))
      else if clam.SpawnError? then Uncaught
      else Resolved(ScanFileResult(write, originalName, lookedUp, clam, elapsed))
  }

  /**
   * A name that passes the heuristic, and a clamscan that cannot be started: as written the scan
   * never resolves, where the fallback promised by its comment is a clean basic validation.
   */
  lemma {:induction false} UnstartableClamscanEscapesFallback(name: string, lookedUp: Option<string>, elapsed: int)
    requires !IsHighRiskFile(name)
    ensures ScanFileAsWritten(Written, Some(name), lookedUp, SpawnError, elapsed) == Uncaught
    ensures ScanFileResult(Written, Some(name), lookedUp, SpawnError, elapsed) == BasicValidation
  {
    if name == "" {
      NoDotNeverHighRisk(name);
    }
  }

  /** The temporary files that exist on the scanning host. */
  class TempFiles {
    var present: set<string>

    constructor ()
      ensures present == {}
    {
      present := {};
    }
  }

  /** The `try` block of `scanFile` and its `catch`: the verdict, once the temp file is written or failed to be. */
  method Detect(write: TempWrite, originalName: Option<string>, lookedUp: Option<string>, clam: ClamRun, elapsed: int)
    returns (r: ScanResult)
    ensures r == ScanFileResult(write, originalName, lookedUp, clam, elapsed)
  {
    if write.WriteFailed? {
      return ScanResult(false, None, Some(if write.message.Some? then write.message.value else "Unknown error during scan"),
                        Some(ScanDetails(None, Some("Scan error"), Some(0))));
    }
    if Truthy(originalName) {
      var typeValidation := ValidateFileType(originalName.value, lookedUp);
      if !typeValidation.isClean {
        return typeValidation;
      }
    }
    match clam {
      case SpawnThrew | SpawnError =>
        r := BasicValidation;
      case Exited(exit) =>
        r := ClamAVVerdict(exit);
        r := r.(details := Some(ScanDetails(r.details.value.fileType, r.details.value.signature, Some(elapsed))));
    }
  }

  /**
   * `scanFile`: write the payload to a fresh temp path, run the heuristic and ClamAV, and unlink
   * the temp file in `finally` on every exit path. A failing unlink is only logged, so the file
   * then remains.
   */
  method ScanFile(tmp: TempFiles, tempPath: string, write: TempWrite, originalName: Option<string>,
                  lookedUp: Option<string>, clam: ClamRun, elapsed: int, unlinkSucceeds: bool)
    returns (r: ScanResult)
    requires tempPath !in tmp.present
    modifies tmp
    ensures r == ScanFileResult(write, originalName, lookedUp, clam, elapsed)
    ensures tmp.present == old(tmp.present) + (if unlinkSucceeds then {} else {tempPath})
  {
    tmp.present := tmp.present + {tempPath};
    r := Detect(write, originalName, lookedUp, clam, elapsed);
    // finally: unlink the temp file
    if unlinkSucceeds {
      tmp.present := tmp.present - {tempPath};
    }
  }
}
