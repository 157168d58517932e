/**
 * The OS segment: a fixed icon per Linux distribution, the distribution
 * read from the `ID=` and `ID_LIKE=` lines of `/etc/os-release`. Reading
 * the first bytes of that file is left to the caller: the scan works on the
 * text already read.
 */
module OsSegment {
  import opened Wrappers
  import opened Text
  import opened StyleModel
  import opened SegmentModel

  datatype Distribution = Unknown | Alpine | Amazon | Arch | CentOS | Debian | Gentoo | NixOS | Raspbian | Ubuntu

  /** The `ID` each known distribution writes. */
  function IdOf(d: Distribution): string
    requires d != Unknown
  {
    match d
    case Alpine => "alpine"
    case Amazon => "amzn"
    case Arch => "arch"
    case CentOS => "centos"
    case Debian => "debian"
    case Gentoo => "gentoo"
    case NixOS => "nixos"
    case Raspbian => "raspbian"
    case Ubuntu => "ubuntu"
  }

  /** The distribution an `ID` value names; nothing for any other value. */
  function DistributionOf(id: string): (r: Option<Distribution>)
    ensures r.Some? ==> r.value != Unknown && IdOf(r.value) == id
  {
    match id
    case "alpine" => Some(Alpine)
    case "amzn" => Some(Amazon)
    case "arch" => Some(Arch)
    case "centos" => Some(CentOS)
    case "debian" => Some(Debian)
    case "gentoo" => Some(Gentoo)
    case "nixos" => Some(NixOS)
    case "raspbian" => Some(Raspbian)
    case "ubuntu" => Some(Ubuntu)
    case _ => None
  }

  /** Every known distribution is recognised by its own `ID`. */
  lemma DistributionOfId(d: Distribution)
    requires d != Unknown
    ensures DistributionOf(IdOf(d)) == Some(d)
  {
  }

  /**
   * A leading `"` is dropped and then a trailing one; when there is no
   * trailing `"` the value is kept as it was, opening quote included.
   */
  function StripQuotes(id: string): (r: string)
    ensures |id| >= 2 && id[0] == '"' && id[|id| - 1] == '"' ==> r == id[1..|id| - 1]
    ensures (|id| == 0 || id[|id| - 1] != '"') ==> r == id
    ensures id != [] && id[0] != '"' && id[|id| - 1] == '"' ==> r == id[..|id| - 1]
  {
    var unquoted := if |id| > 0 && id[0] == '"' then id[1..] else id;
    if |unquoted| > 0 && unquoted[|unquoted| - 1] == '"' then unquoted[..|unquoted| - 1] else id
  }

  lemma StripQuotesExamples()
    ensures StripQuotes("\"ubuntu\"") == "ubuntu"
    ensures StripQuotes("ubuntu") == "ubuntu"
    ensures StripQuotes("\"ubuntu") == "\"ubuntu"
    ensures StripQuotes("\"") == "\""
  {
  }

  /** The value of `key=value` on this line, quotes stripped; nothing for a line of another key. */
  function Value(line: string, key: string): (r: Option<string>)
    ensures r.Some? <==> IsPrefix(key + "=", line)
  {
    if IsPrefix(key + "=", line) then Some(StripQuotes(line[|key| + 1..])) else None
  }

  /**
   * The scan of the lines for `key`: the first recognised value ends it;
   * an unrecognised `ID` switches to `ID_LIKE`, and an unrecognised
   * `ID_LIKE` ends it with nothing.
   */
  function Scan(lines: seq<string>, key: string): Option<Distribution>
    decreases |lines|
  {
    if lines == [] then None
    else match Value(lines[0], key)
      case None => Scan(lines[1..], key)
      case Some(id) =>
        match DistributionOf(id)
        case Some(d) => Some(d)
        case None => if key == "ID_LIKE" then None else Scan(lines[1..], "ID_LIKE")
  }

  /** `detect_distribution`, on the text read from the file: a loop over its lines. */
  method DetectDistribution(head: string) returns (r: Option<Distribution>)
    ensures r == Scan(Split(head, '\n'), "ID")
  {
    var lines := Split(head, '\n');
    var key := "ID";
    var i := 0;
    while i < |lines|
      invariant 0 <= i <= |lines|
      invariant Scan(lines, "ID") == Scan(lines[i..], key)
    {
      assert lines[i..][0] == lines[i] && lines[i..][1..] == lines[i + 1..];
      var line := lines[i];
      var prefix := key + "=";
      if IsPrefix(prefix, line) {
        var id := StripQuotes(line[|prefix|..]);
        var distro := DistributionOf(id);
        if distro.Some? {
          return distro;
        }
        if key == "ID_LIKE" {
          return None;
        }
        key := "ID_LIKE";
      }
      i := i + 1;
    }
    return None;
  }

  /** A line that sets `ID` or `ID_LIKE` to the id of `d`. */
  predicate Names(line: string, d: Distribution)
    requires d != Unknown
  {
    Value(line, "ID") == Some(IdOf(d)) || Value(line, "ID_LIKE") == Some(IdOf(d))
  }

  /** Whatever the scan finds is named by some `ID` or `ID_LIKE` line. */
  lemma {:induction false} ScanSound(lines: seq<string>, key: string)
    requires key == "ID" || key == "ID_LIKE"
    ensures Scan(lines, key).Some? ==>
      Scan(lines, key).value != Unknown
      && exists i :: 0 <= i < |lines| && Names(lines[i], Scan(lines, key).value)
    decreases |lines|
  {
    if lines != [] {
      ScanSound(lines[1..], key);
      ScanSound(lines[1..], "ID_LIKE");
      var r := Scan(lines, key);
      if r.Some? {
        var v := Value(lines[0], key);
        if v.Some? && DistributionOf(v.value).Some? {
          assert Names(lines[0], r.value);
        } else {
          var i :| 0 <= i < |lines[1..]| && Names(lines[1..][i], r.value);
          assert lines[1..][i] == lines[i + 1];
        }
      }
    }
  }

  /**
   * The first `ID` line decides when it names a known distribution; the
   * lines before it, `ID_LIKE` ones included, do not count.
   */
  lemma {:induction false} ScanFirstId(lines: seq<string>, i: nat, d: Distribution)
    requires d != Unknown && i < |lines|
    requires Value(lines[i], "ID") == Some(IdOf(d))
    requires forall j :: 0 <= j < i ==> Value(lines[j], "ID").None?
    ensures Scan(lines, "ID") == Some(d)
    decreases i
  {
    DistributionOfId(d);
    if i > 0 {
      forall j | 0 <= j < i - 1 ensures Value(lines[1..][j], "ID").None? {
        assert lines[1..][j] == lines[j + 1];
      }
      ScanFirstId(lines[1..], i - 1, d);
    }
  }

  /** No line of the two keys: no distribution. */
  lemma {:induction false} ScanWithoutKeys(lines: seq<string>, key: string)
    requires key == "ID" || key == "ID_LIKE"
    requires forall j :: 0 <= j < |lines| ==> !IsPrefix("ID=", lines[j]) && !IsPrefix("ID_LIKE=", lines[j])
    ensures Scan(lines, key) == None
    decreases |lines|
  {
    if lines != [] {
      assert key + "=" == "ID=" || key + "=" == "ID_LIKE=";
      assert Value(lines[0], key).None?;
      forall j | 0 <= j < |lines[1..]|
        ensures !IsPrefix("ID=", lines[1..][j]) && !IsPrefix("ID_LIKE=", lines[1..][j])
      {
        assert lines[1..][j] == lines[j + 1];
      }
      ScanWithoutKeys(lines[1..], key);
    }
  }

  /** An os-release of Ubuntu: the `ID` line decides. */
  lemma ScanUbuntu()
    ensures Scan(["NAME=\"Ubuntu\"", "ID=ubuntu", "ID_LIKE=debian"], "ID") == Some(Ubuntu)
  {
    assert "NAME=\"Ubuntu\""[..3][0] != "ID="[0];
    assert IsPrefix("ID=", "ID=ubuntu") && "ID=ubuntu"[3..] == "ubuntu";
  }

  /** An unknown `ID` falls back to a quoted `ID_LIKE`. */
  lemma ScanDerivative()
    ensures Scan(["ID=linuxmint", "ID_LIKE=\"ubuntu\""], "ID") == Some(Ubuntu)
  {
    assert IsPrefix("ID=", "ID=linuxmint") && "ID=linuxmint"[3..] == "linuxmint";
    assert IsPrefix("ID_LIKE=", "ID_LIKE=\"ubuntu\"") && "ID_LIKE=\"ubuntu\""[8..] == "\"ubuntu\"";
    assert StripQuotes("\"ubuntu\"") == "ubuntu";
    assert DistributionOf("linuxmint").None?;
  }

  /** An unknown `ID_LIKE` ends the scan, even before a known one. */
  lemma ScanUnknownLike()
    ensures Scan(["ID=pop", "ID_LIKE=\"ubuntu debian\"", "ID_LIKE=ubuntu"], "ID") == None
  {
    assert IsPrefix("ID=", "ID=pop") && "ID=pop"[3..] == "pop";
    assert IsPrefix("ID_LIKE=", "ID_LIKE=\"ubuntu debian\"") && "ID_LIKE=\"ubuntu debian\""[8..] == "\"ubuntu debian\"";
  }

  /** An `ID_LIKE` before the `ID` is not read; a value with only its opening quote keeps it. */
  lemma ScanLikeBeforeId()
    ensures Scan(["ID_LIKE=arch", "ID=\"arch"], "ID") == None
  {
    assert "ID_LIKE=arch"[..3][2] != "ID="[2];
    assert IsPrefix("ID=", "ID=\"arch") && "ID=\"arch"[3..] == "\"arch";
  }

  // ---------------------------------------------------------------------------
  // The segment
  // ---------------------------------------------------------------------------

  datatype OsEntry = OsEntry(style: Style, content: string)

  datatype OsConfig = OsConfig(
    alpine: OsEntry,
    amazon: OsEntry,
    arch: OsEntry,
    centos: OsEntry,
    debian: OsEntry,
    gentoo: OsEntry,
    nix: OsEntry,
    raspbian: OsEntry,
    ubuntu: OsEntry,
    linux: OsEntry)

  const DefaultStyle: Style := Style(Named(NamedColor.White), Color.Fixed(33), [])

  const DefaultConfig: OsConfig := OsConfig(
    OsEntry(DefaultStyle, " \U{f300} "),
    OsEntry(DefaultStyle, " \U{f270} "),
    OsEntry(DefaultStyle, " \U{f303} "),
    OsEntry(DefaultStyle, " \U{f304} "),
    OsEntry(DefaultStyle, " \U{f306} "),
    OsEntry(DefaultStyle, " \U{f30d} "),
    OsEntry(DefaultStyle, " \U{f313} "),
    OsEntry(DefaultStyle, " \U{f315} "),
    OsEntry(DefaultStyle, " \U{f31b} "),
    OsEntry(DefaultStyle, " \U{e712} "))

  /** The configuration entry of a distribution; the `linux` one for an unknown one. */
  function EntryFor(config: OsConfig, d: Distribution): OsEntry {
    match d
    case Alpine => config.alpine
    case Amazon => config.amazon
    case Arch => config.arch
    case CentOS => config.centos
    case Debian => config.debian
    case Gentoo => config.gentoo
    case NixOS => config.nix
    case Raspbian => config.raspbian
    case Ubuntu => config.ubuntu
    case Unknown => config.linux
  }

  /**
   * `OsSegmentBuilder::build` on Linux: always a segment, the entry's text
   * verbatim in the entry's style; a failed detection uses the `linux` entry.
   */
  function Build(detected: Option<Distribution>, config: OsConfig): (r: Option<Segment>)
    ensures r.Some?
    ensures detected.None? ==> r.value == Segment(config.linux.content, AnsiOf(config.linux.style))
    ensures detected.Some? ==> var entry := EntryFor(config, detected.value);
      r.value == Segment(entry.content, AnsiOf(entry.style))
  {
    var entry := EntryFor(config, detected.GetOr(Unknown));
    Some(Segment(entry.content, AnsiOf(entry.style)))
  }

  /** The configuration with the entry of `d` replaced by `entry`, every other entry kept. */
  function WithEntry(config: OsConfig, d: Distribution, entry: OsEntry): (r: OsConfig)
    ensures EntryFor(r, d) == entry
    ensures forall other :: other != d ==> EntryFor(r, other) == EntryFor(config, other)
  {
    match d
    case Alpine => config.(alpine := entry)
    case Amazon => config.(amazon := entry)
    case Arch => config.(arch := entry)
    case CentOS => config.(centos := entry)
    case Debian => config.(debian := entry)
    case Gentoo => config.(gentoo := entry)
    case NixOS => config.(nix := entry)
    case Raspbian => config.(raspbian := entry)
    case Ubuntu => config.(ubuntu := entry)
    case Unknown => config.(linux := entry)
  }

  /**
   * Each distribution is drawn from its own entry alone: whatever that entry
   * holds is shown verbatim in its style, and changing it leaves the segment
   * of every other distribution as it was.
   */
  lemma BuildUsesOwnEntry(config: OsConfig, d: Distribution, entry: OsEntry)
    ensures Build(Some(d), WithEntry(config, d, entry)).value == Segment(entry.content, AnsiOf(entry.style))
    ensures forall other :: other != d ==>
      Build(Some(other), WithEntry(config, d, entry)) == Build(Some(other), config)
  {
  }

  /** With the default configuration, every distribution shows its own icon. */
  lemma DefaultIconsDistinct(d1: Distribution, d2: Distribution)
    requires d1 != d2
    ensures Build(Some(d1), DefaultConfig).value.content != Build(Some(d2), DefaultConfig).value.content
  {
    DefaultIconNames(d1);
    DefaultIconNames(d2);
  }

  /** Which distribution a default icon glyph stands for. */
  function IconDistribution(icon: char): Distribution {
    if icon == '\U{f300}' then Alpine
    else if icon == '\U{f270}' then Amazon
    else if icon == '\U{f303}' then Arch
    else if icon == '\U{f304}' then CentOS
    else if icon == '\U{f306}' then Debian
    else if icon == '\U{f30d}' then Gentoo
    else if icon == '\U{f313}' then NixOS
    else if icon == '\U{f315}' then Raspbian
    else if icon == '\U{f31b}' then Ubuntu
    else Unknown
  }

  /** The glyph of a distribution's default entry names that distribution. */
  lemma DefaultIconNames(d: Distribution)
    ensures |EntryFor(DefaultConfig, d).content| == 3
    ensures IconDistribution(EntryFor(DefaultConfig, d).content[1]) == d
  {
  }
}
