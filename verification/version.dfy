/** pkg/version/version.go: the build metadata and the two strings made
    from it. The package-level variables become one immutable record. */
module Version {
  import opened Wrappers
  import opened Strings

  /** The five values that are injected at build time or read from the
      Go runtime. */
  datatype BuildInfo = BuildInfo(
    version: string,
    gitCommit: string,
    buildDate: string,
    goVersion: string,
    platform: string)

  const DefaultVersion := "0.4.0"
  const DefaultGitCommit := "unknown"
  const DefaultBuildDate := "unknown"

  /** The label that precedes each field in `Info`, in field order. */
  const Labels: seq<string> :=
    ["Version: ", "Git Commit: ", "Build Date: ", "Go Version: ", "Platform: "]

  function Fields(b: BuildInfo): seq<string>
  {
    [b.version, b.gitCommit, b.buildDate, b.goVersion, b.platform]
  }

  /** No field contains a line break, so `Info` has one field per line. */
  predicate SingleLineFields(b: BuildInfo)
  {
    forall i :: 0 <= i < |Fields(b)| ==> '\n' !in Fields(b)[i]
  }

  /** The platform string: operating system, '/', architecture. */
  function Platform(goos: string, goarch: string): string
  {
    goos + "/" + goarch
  }

  /** Splitting the platform string at '/' gives operating system and
      architecture back. */
  lemma PlatformRoundTrip(goos: string, goarch: string)
    requires '/' !in goos && '/' !in goarch
    ensures Split(Platform(goos, goarch), '/') == [goos, goarch]
  {
    SplitAppendLast(goos, goarch, '/');
  }

  /** The values a binary built without injected metadata reports; the Go
      version and the platform come from the runtime. */
  function Defaults(goVersion: string, goos: string, goarch: string): (d: BuildInfo)
    ensures d.version == "0.4.0" && d.gitCommit == "unknown" && d.buildDate == "unknown"
    ensures d.goVersion == goVersion
    ensures '/' !in goos && '/' !in goarch ==> Split(d.platform, '/') == [goos, goarch]
  {
    var d := BuildInfo(DefaultVersion, DefaultGitCommit, DefaultBuildDate,
                       goVersion, Platform(goos, goarch));
    if '/' !in goos && '/' !in goarch then
      PlatformRoundTrip(goos, goarch);
      d
    else d
  }

  /** The version-block lines of a binary without injected metadata. */
  lemma DefaultLines(goVersion: string, goos: string, goarch: string)
    ensures LabelledFields(Defaults(goVersion, goos, goarch))
            == ["Version: 0.4.0", "Git Commit: unknown", "Build Date: unknown",
                "Go Version: " + goVersion, "Platform: " + goos + "/" + goarch]
  {
    var lines := LabelledFields(Defaults(goVersion, goos, goarch));
    assert "Version: " + "0.4.0" == "Version: 0.4.0";
    assert "Git Commit: " + "unknown" == "Git Commit: unknown";
    assert "Build Date: " + "unknown" == "Build Date: unknown";
    assert lines[0] == "Version: 0.4.0";
    assert lines[1] == "Git Commit: unknown";
    assert lines[2] == "Build Date: unknown";
    assert lines[4] == "Platform: " + goos + "/" + goarch;
  }

  /** What a binary without injected metadata prints: version 0.4.0, commit
      and build date "unknown", then the runtime's Go version and platform. */
  lemma DefaultsReported(goVersion: string, goos: string, goarch: string)
    requires '\n' !in goVersion && '\n' !in goos && '\n' !in goarch
    ensures ShortInfo(Defaults(goVersion, goos, goarch)) == "v0.4.0 (unknown)"
    ensures Split(Info(Defaults(goVersion, goos, goarch)), '\n')
            == ["Version: 0.4.0", "Git Commit: unknown", "Build Date: unknown",
                "Go Version: " + goVersion, "Platform: " + goos + "/" + goarch]
  {
    var d := Defaults(goVersion, goos, goarch);
    assert "v" + "0.4.0" + " (" + "unknown" + ")" == "v0.4.0 (unknown)";
    assert '\n' !in d.platform;
    assert SingleLineFields(d);
    InfoLines(d);
    DefaultLines(goVersion, goos, goarch);
  }

  /** The multi-line version block printed for `-version`: five
      "Label: value" lines separated by line breaks (no final one). */
  function Info(b: BuildInfo): (text: string)
    ensures text == Join(LabelledFields(b), '\n')
  {
    var lines := LabelledFields(b);
    var t4 := "Platform: " + b.platform;
    var t3 := "Go Version: " + b.goVersion + "\n" + t4;
    var t2 := "Build Date: " + b.buildDate + "\n" + t3;
    var t1 := "Git Commit: " + b.gitCommit + "\n" + t2;
    assert Join(lines[4..], '\n') == t4;
    assert Join(lines[3..], '\n') == t3 by {
      assert lines[3..][1..] == lines[4..];
    }
    assert Join(lines[2..], '\n') == t2 by {
      assert lines[2..][1..] == lines[3..];
    }
    assert Join(lines[1..], '\n') == t1 by {
      assert lines[1..][1..] == lines[2..];
    }
    "Version: " + b.version + "\n" + t1
  }

  /** The condensed version string; `ParseShortInfo` recovers version and
      commit from it when the version has no '('. */
  function ShortInfo(b: BuildInfo): (s: string)
    ensures '(' !in b.version ==> ParseShortInfo(s) == Some((b.version, b.gitCommit))
  {
    var s := "v" + b.version + " (" + b.gitCommit + ")";
    var k := |b.version| + 2;
    assert s[k] == '(';
    assert s[..k] == "v" + b.version + " ";
    assert s[1..k - 1] == b.version;
    assert s[k + 1..|s| - 1] == b.gitCommit;
    if '(' !in b.version then
      assert '(' !in s[..k];
      assert IndexOf(s, '(') == k;
      s
    else s
  }

  /** Reads a version block back: five lines, each its label followed by
      the field's value. */
  function ParseInfo(text: string): Option<BuildInfo>
  {
    var lines := Split(text, '\n');
    if |lines| == 5 && forall i :: 0 <= i < 5 ==> StartsWith(lines[i], Labels[i]) then
      Some(BuildInfo(
        lines[0][|Labels[0]|..],
        lines[1][|Labels[1]|..],
        lines[2][|Labels[2]|..],
        lines[3][|Labels[3]|..],
        lines[4][|Labels[4]|..]))
    else None
  }

  /** Reads a condensed version string back into version and commit: a 'v',
      the version, " (", the commit, ")". */
  function ParseShortInfo(s: string): Option<(string, string)>
  {
    if |s| >= 4 && s[0] == 'v' && s[|s| - 1] == ')' && '(' in s then
      var k := IndexOf(s, '(');
      if 2 <= k < |s| - 1 && s[k - 1] == ' ' then Some((s[1..k - 1], s[k + 1..|s| - 1]))
      else None
    else None
  }

  /** The lines of the version block: each label followed by its field. */
  function LabelledFields(b: BuildInfo): seq<string>
  {
    [Labels[0] + b.version, Labels[1] + b.gitCommit, Labels[2] + b.buildDate,
     Labels[3] + b.goVersion, Labels[4] + b.platform]
  }

  /** Splitting `Info` at line breaks gives the labelled fields, in field
      order. */
  lemma InfoLines(b: BuildInfo)
    requires SingleLineFields(b)
    ensures Split(Info(b), '\n') == LabelledFields(b)
  {
    var lines := LabelledFields(b);
    forall i | 0 <= i < 5
      ensures '\n' !in lines[i]
    {
      assert '\n' !in Fields(b)[i];
      assert '\n' !in Labels[i];
      assert lines[i] == Labels[i] + Fields(b)[i];
    }
    SplitJoin(lines, '\n');
  }

  /** `ParseInfo` recovers every field from `Info`. */
  lemma InfoRoundTrip(b: BuildInfo)
    requires SingleLineFields(b)
    ensures ParseInfo(Info(b)) == Some(b)
  {
    InfoLines(b);
    var lines := Split(Info(b), '\n');
    forall i | 0 <= i < 5
      ensures StartsWith(lines[i], Labels[i])
              && lines[i][|Labels[i]|..] == Fields(b)[i]
    {
      assert lines[i] == Labels[i] + Fields(b)[i];
    }
  }

  /** Each "Label: value" pair occurs in `Info`. */
  lemma InfoContainsEachField(b: BuildInfo)
    ensures Contains(Info(b), "Version: " + b.version)
    ensures Contains(Info(b), "Git Commit: " + b.gitCommit)
    ensures Contains(Info(b), "Build Date: " + b.buildDate)
    ensures Contains(Info(b), "Go Version: " + b.goVersion)
    ensures Contains(Info(b), "Platform: " + b.platform)
  {
    var p1 := "Version: " + b.version;
    var p2 := "Git Commit: " + b.gitCommit;
    var p3 := "Build Date: " + b.buildDate;
    var p4 := "Go Version: " + b.goVersion;
    var p5 := "Platform: " + b.platform;
    var r4 := p5;
    var r3 := p4 + "\n" + r4;
    var r2 := p3 + "\n" + r3;
    var r1 := p2 + "\n" + r2;
    assert Info(b) == p1 + "\n" + r1;
    // each pair occurs in the line it starts, and so in every text that ends with that line
    ContainsSelf(p1);
    ContainsAppend(p1, p1, "\n");
    ContainsAppend(p1 + "\n", p1, r1);
    ContainsSelf(p2);
    ContainsAppend(p2, p2, "\n");
    ContainsAppend(p2 + "\n", p2, r2);
    ContainsPrepend(p1 + "\n", r1, p2);
    ContainsSelf(p3);
    ContainsAppend(p3, p3, "\n");
    ContainsAppend(p3 + "\n", p3, r3);
    ContainsPrepend(p2 + "\n", r2, p3);
    ContainsPrepend(p1 + "\n", r1, p3);
    ContainsSelf(p4);
    ContainsAppend(p4, p4, "\n");
    ContainsAppend(p4 + "\n", p4, r4);
    ContainsPrepend(p3 + "\n", r3, p4);
    ContainsPrepend(p2 + "\n", r2, p4);
    ContainsPrepend(p1 + "\n", r1, p4);
    ContainsSelf(p5);
    ContainsPrepend(p4 + "\n", r4, p5);
    ContainsPrepend(p3 + "\n", r3, p5);
    ContainsPrepend(p2 + "\n", r2, p5);
    ContainsPrepend(p1 + "\n", r1, p5);
  }

  /** The expected strings of version_test.go (its exact-format check of
      `Info` repeats the template itself, so `InfoLines` covers it). */
  lemma VersionExamples()
    ensures ShortInfo(BuildInfo("1.2.3", "abcdef123456", "2025-07-29", "go1.19", "darwin/amd64"))
            == "v1.2.3 (abcdef123456)"
  {
    var version, commit := "1.2.3", "abcdef123456";
    assert "v" + version + " (" + commit + ")" == "v1.2.3 (abcdef123456)";
  }

  /** The platform string of version_test.go for darwin on amd64. */
  lemma PlatformExample()
    ensures Platform("darwin", "amd64") == "darwin/amd64"
  {
  }
}
