/** Where an artifact's version comes from: the Bundle-Version line of META-INF/MANIFEST.MF. */
module Manifest {
  import opened Strings
  import opened GitObjects

  const MANIFEST: string := "META-INF/MANIFEST.MF"
  const KEY: string := "Bundle-Version:"

  predicate IsVersionLine(line: string) {
    KEY <= TrimSpace(line)
  }

  function VersionIn(line: string): string
    requires IsVersionLine(line)
  {
    TrimSpace(TrimSpace(line)[|KEY|..])
  }

  /** The first version line decides; an empty value there is an error, later lines are not consulted. */
  function VersionOfLines(lines: seq<string>): Option<string>
    decreases |lines|
  {
    if lines == [] then None
    else if IsVersionLine(lines[0]) then
      (if VersionIn(lines[0]) == "" then None else Some(VersionIn(lines[0])))
    else VersionOfLines(lines[1..])
  }

  /** None stands for the three errors: no manifest, no version line, an empty version. */
  function ExtractVersion(files: FileMap): Option<string> {
    if MANIFEST in files then VersionOfLines(Split(files[MANIFEST], '\n')) else None
  }

  /** What a version is: the non-empty trimmed value of the first version line of the manifest. */
  lemma {:induction false} VersionOfLinesMeaning(lines: seq<string>, version: string)
    ensures VersionOfLines(lines) == Some(version) <==>
              version != "" && exists k ::
                && 0 <= k < |lines| && IsVersionLine(lines[k]) && VersionIn(lines[k]) == version
                && forall j | 0 <= j < k :: !IsVersionLine(lines[j])
  {
    if lines != [] && !IsVersionLine(lines[0]) {
      VersionOfLinesMeaning(lines[1..], version);
      if VersionOfLines(lines) == Some(version) {
        var k :| && 0 <= k < |lines[1..]| && IsVersionLine(lines[1..][k]) && VersionIn(lines[1..][k]) == version
                 && forall j | 0 <= j < k :: !IsVersionLine(lines[1..][j]);
        assert lines[1..][k] == lines[k + 1];
        forall j | 0 <= j < k + 1 ensures !IsVersionLine(lines[j]) {
          if j > 0 { assert lines[1..][j - 1] == lines[j]; }
        }
      }
      if k :| && 0 <= k < |lines| && IsVersionLine(lines[k]) && VersionIn(lines[k]) == version
              && forall j | 0 <= j < k :: !IsVersionLine(lines[j]) {
        assert lines[1..][k - 1] == lines[k];
        assert forall j | 0 <= j < k - 1 :: lines[1..][j] == lines[j + 1];
      }
    }
  }

  /** A version read from a manifest carries no white space at its ends. */
  lemma VersionIsTrimmed(files: FileMap)
    ensures ExtractVersion(files).Some? ==> TrimSpace(ExtractVersion(files).value) == ExtractVersion(files).value
  {
    if ExtractVersion(files).Some? {
      var lines := Split(files[MANIFEST], '\n');
      VersionOfLinesMeaning(lines, ExtractVersion(files).value);
      var k :| 0 <= k < |lines| && IsVersionLine(lines[k]) && VersionIn(lines[k]) == ExtractVersion(files).value;
      Trimmed(TrimSpace(lines[k])[|KEY|..]);
    }
  }

  method ExtractVersionFromManifest(files: FileMap) returns (version: Option<string>)
    ensures version == ExtractVersion(files)
  {
    if MANIFEST !in files { return None; }
    var lines := Split(files[MANIFEST], '\n');
    for i := 0 to |lines|
      invariant VersionOfLines(lines) == VersionOfLines(lines[i..])
    {
      var line := TrimSpace(lines[i]);
      if KEY <= line {
        var value := TrimSpace(line[|KEY|..]);
        return if value == "" then None else Some(value);
      }
    }
    version := None;
  }
}
