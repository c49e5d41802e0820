/** The naming helpers of `internal/utils/utils.go`: `SanitizeFilename`, the file name
    `SaveTimestamped` composes, the hex suffix of `randHex` and the answer test of
    `PromptYesNoDefaultYes`. The clock, the random bytes and the file system are parameters. */
module Utils {
  import opened Wrappers
  import opened Strings
  import Urls

  /** The characters the `srep` replacer turns into '_'. */
  const Forbidden: set<char> := {'/', '\\', ':', '*', '?', '"', '<', '>', '|'}

  /** `srep.Replace`: every forbidden character becomes '_'. */
  function Replace(s: string): (r: string)
    ensures |r| == |s|
    ensures forall i :: 0 <= i < |s| ==> r[i] == if s[i] in Forbidden then '_' else s[i]
  {
    seq(|s|, i requires 0 <= i < |s| => if s[i] in Forbidden then '_' else s[i])
  }

  /** `SanitizeFilename`; `filepath.Base` is the slash-separated one. */
  function SanitizeFilename(name: string): string
  {
    Finish(Cleaned(name))
  }

  /** The base name with forbidden characters replaced and white space trimmed; nothing
      for an empty name. */
  function Cleaned(name: string): string
  {
    if name == [] then [] else TrimSpace(Replace(Urls.PathBase(name)))
  }

  /** The last steps of `SanitizeFilename`: "file" for a blank base name, else the name
      without trailing dots and spaces. */
  function Finish(t: string): string
  {
    if t == [] then "file" else TrimRightSet(t, {'.', ' '})
  }

  lemma FinishSafe(t: string)
    requires forall i :: 0 <= i < |t| ==> t[i] !in Forbidden
    ensures t == [] ==> Finish(t) == "file"
    ensures forall i :: 0 <= i < |Finish(t)| ==> Finish(t)[i] !in Forbidden
    ensures var r := Finish(t); r == [] || (r[|r| - 1] != '.' && r[|r| - 1] != ' ')
  {
    if t == [] {
      assert Finish(t)[3] == 'e';
      forall i | 0 <= i < 4 ensures "file"[i] !in Forbidden {
      }
    } else {
      var r := TrimRightSet(t, {'.', ' '});
      forall i | 0 <= i < |r| ensures r[i] !in Forbidden {
        assert r[i] == t[i];
      }
    }
  }

  /** What `SanitizeFilename` promises: "file" for an empty name or one that is blank after
      the replacement, never a forbidden character, and never a trailing '.' or ' '. */
  lemma SanitizeFilenameSafe(name: string)
    ensures name == [] ==> SanitizeFilename(name) == "file"
    ensures TrimSpace(Replace(Urls.PathBase(name))) == [] ==> SanitizeFilename(name) == "file"
    ensures forall i :: 0 <= i < |SanitizeFilename(name)| ==> SanitizeFilename(name)[i] !in Forbidden
    ensures var r := SanitizeFilename(name); r == [] || (r[|r| - 1] != '.' && r[|r| - 1] != ' ')
  {
    var c := Cleaned(name);
    CleanedSafe(name);
    FinishSafe(c);
    assert SanitizeFilename(name) == Finish(c);
  }

  lemma CleanedSafe(name: string)
    ensures forall i :: 0 <= i < |Cleaned(name)| ==> Cleaned(name)[i] !in Forbidden
  {
    if name != [] {
      TrimSpaceKeeps(Replace(Urls.PathBase(name)), Forbidden);
    }
  }

  /** The result can still be empty: a name made of dots trims to nothing after the blank test. */
  lemma SanitizeCanBeEmpty()
    ensures SanitizeFilename("...") == []
  {
    DotsCleaned();
    DotsFinish();
    assert SanitizeFilename("...") == Finish(Cleaned("..."));
  }

  lemma DotsBase()
    ensures Urls.PathBase("...") == "..."
  {
    var d3 := "...";
    assert forall i :: 0 <= i < |d3| ==> d3[i] == '.';
    Urls.PathBaseNoSlash(d3);
  }

  lemma DotsCleaned()
    ensures Cleaned("...") == "..."
  {
    DotsBase();
    var d3 := "...";
    assert Replace(d3) == d3;
    assert TrimRightSpace(d3) == d3;
    assert TrimLeftSpace(d3) == d3;
  }

  lemma DotsFinish()
    ensures Finish("...") == []
  {
    assert "..."[..2] == ".." && ".."[..1] == "." && "."[..0] == [];
    assert TrimRightSet(".", {'.', ' '}) == [];
    assert TrimRightSet("..", {'.', ' '}) == [];
  }

  /** The extension `SaveTimestamped` uses: one leading '.' dropped, "bin" when nothing is left. */
  function Extension(ext: string): (r: string)
    ensures r != []
    ensures ext != [] && ext[0] == '.' && |ext| > 1 ==> r == ext[1..]
    ensures ext != [] && ext[0] != '.' ==> r == ext
    ensures ext == [] || ext == "." ==> r == "bin"
  {
    var e := TrimPrefix(ext, ".");
    if e == [] then "bin" else e
  }

  /** The file name `SaveTimestamped` writes: prefix, timestamp and suffix joined by '_',
      then '.' and the extension. */
  function TimestampedName(pref: string, ts: string, sfx: string, ext: string): string
  {
    SanitizeFilename(pref) + "_" + ts + "_" + sfx + "." + Extension(ext)
  }

  /** `filepath.Join(dir, name)` for a clean directory and a name without separators. */
  function JoinPath(dir: string, name: string): string
  {
    if dir != [] && dir[|dir| - 1] == '/' then dir + name else dir + "/" + name
  }

  /** A name without '/' joined to a directory is the base name of the joined path. */
  lemma JoinBase(dir: string, n: string)
    requires n != [] && '/' !in n
    ensures Urls.PathBase(JoinPath(dir, n)) == n
  {
    var full := JoinPath(dir, n);
    var x := if dir != [] && dir[|dir| - 1] == '/' then dir[..|dir| - 1] else dir;
    assert full == x + "/" + n;
    Urls.PathBaseName(x, n);
  }

  lemma ExtensionNoSlash(ext: string)
    requires '/' !in ext
    ensures '/' !in Extension(ext)
  {
    var t := TrimPrefix(ext, ".");
    if "." <= ext {
      assert t == ext[1..];
    }
  }

  /** When the timestamp, the suffix and the extension hold no '/', neither does the name, and
      the file lands directly in the directory: the base name of the joined path is the name. */
  lemma NameStaysInDir(dir: string, pref: string, ts: string, sfx: string, ext: string)
    requires '/' !in ts && '/' !in sfx && '/' !in ext
    ensures '/' !in TimestampedName(pref, ts, sfx, ext)
    ensures Urls.PathBase(JoinPath(dir, TimestampedName(pref, ts, sfx, ext))) == TimestampedName(pref, ts, sfx, ext)
  {
    NameNoSlash(pref, ts, sfx, ext);
    JoinBase(dir, TimestampedName(pref, ts, sfx, ext));
  }

  lemma NameNoSlash(pref: string, ts: string, sfx: string, ext: string)
    requires '/' !in ts && '/' !in sfx && '/' !in ext
    ensures TimestampedName(pref, ts, sfx, ext) != [] && '/' !in TimestampedName(pref, ts, sfx, ext)
  {
    var p, e := SanitizeFilename(pref), Extension(ext);
    SanitizedNoSlash(pref);
    ExtensionNoSlash(ext);
    var n := TimestampedName(pref, ts, sfx, ext);
    assert n == p + "_" + ts + "_" + sfx + "." + e;
    assert '/' !in p + "_" && '/' !in "_" + sfx && '/' !in "." + e;
  }

  lemma SanitizedNoSlash(name: string)
    ensures '/' !in SanitizeFilename(name)
  {
    SanitizeFilenameSafe(name);
    assert '/' in Forbidden;
  }

  /** `SaveTimestamped` with the clock reading `ts`, the random suffix `sfx`, and `ensureDir`
      and `save` as what creating the directory and writing the file end in. */
  function SaveTimestamped(
    dir: string, pref: string, ext: string, ts: string, sfx: string,
    ensureDir: Option<string>, save: string -> Option<string>): (r: Result<string, string>)
    ensures dir == [] ==> r == Failure("empty baseDir")
    ensures dir != [] && ensureDir.Some? ==> r == Failure(ensureDir.value)
    ensures dir != [] && ensureDir.None? ==>
      var full := JoinPath(dir, TimestampedName(pref, ts, sfx, ext));
      r == (if save(full).Some? then Failure(save(full).value) else Success(full))
  {
    if dir == [] then Failure("empty baseDir")
    else if ensureDir.Some? then Failure(ensureDir.value)
    else
      var full := JoinPath(dir, TimestampedName(pref, ts, sfx, ext));
      var err := save(full);
      if err.Some? then Failure(err.value) else Success(full)
  }

  // ---------------------------------------------------------------------------
  // Hex

  type Byte = x: int | 0 <= x < 256

  const HexDigits: string := "0123456789abcdef"

  /** `hex.EncodeToString`: two lower-case digits per byte, high nibble first. */
  function HexEncode(b: seq<Byte>): (r: string)
    ensures |r| == 2 * |b|
    ensures forall i :: 0 <= i < |r| ==> IsHexDigit(r[i])
  {
    if b == [] then []
    else
      HexDigitValue(b[0] / 16);
      HexDigitValue(b[0] % 16);
      [HexDigits[b[0] / 16], HexDigits[b[0] % 16]] + HexEncode(b[1..])
  }

  predicate IsHexDigit(c: char)
  {
    '0' <= c <= '9' || 'a' <= c <= 'f'
  }

  /** The value of a lower-case hex digit. */
  function HexValue(c: char): (v: nat)
    ensures v < 16
  {
    if '0' <= c <= '9' then c as int - '0' as int
    else if 'a' <= c <= 'f' then c as int - 'a' as int + 10
    else 0
  }

  function HexDecode(s: string): seq<Byte>
    requires |s| % 2 == 0
  {
    if s == [] then [] else [HexValue(s[0]) * 16 + HexValue(s[1])] + HexDecode(s[2..])
  }

  lemma HexDigitValue(d: nat)
    requires d < 16
    ensures IsHexDigit(HexDigits[d]) && HexValue(HexDigits[d]) == d
  {
  }

  /** The hex text decodes back to the bytes. */
  lemma {:induction false} HexRoundTrip(b: seq<Byte>)
    ensures HexDecode(HexEncode(b)) == b
  {
    if b != [] {
      var hi, lo := b[0] / 16, b[0] % 16;
      HexDigitValue(hi);
      HexDigitValue(lo);
      var s := HexEncode(b);
      assert s == [HexDigits[hi], HexDigits[lo]] + HexEncode(b[1..]);
      assert s[2..] == HexEncode(b[1..]);
      HexRoundTrip(b[1..]);
      assert hi * 16 + lo == b[0];
      assert HexDecode(s) == [b[0]] + b[1..];
    }
  }

  /** `randHex(n)` for the `n` random bytes `b`: `2n` lower-case hex digits that encode them. */
  function RandHex(b: seq<Byte>): (r: string)
    ensures |r| == 2 * |b|
    ensures forall i :: 0 <= i < |r| ==> IsHexDigit(r[i])
    ensures HexDecode(r) == b
  {
    HexRoundTrip(b);
    HexEncode(b)
  }

  // ---------------------------------------------------------------------------
  // Answers

  /** `PromptYesNoDefaultYes` on the line read: yes for an empty answer, "y" or "yes", in any
      case and with surrounding white space. */
  predicate AnswerIsYes(line: string)
  {
    var l := TrimSpace(ToLower(line));
    l == [] || l == "y" || l == "yes"
  }

  lemma LowerCharIdempotent(c: char)
    ensures LowerChar(LowerChar(c)) == LowerChar(c)
  {
  }

  /** Case does not matter to the answer. */
  lemma AnswerIgnoresCase(line: string)
    ensures AnswerIsYes(ToLower(line)) == AnswerIsYes(line)
  {
    forall i | 0 <= i < |line| ensures LowerChar(LowerChar(line[i])) == LowerChar(line[i]) {
      LowerCharIdempotent(line[i]);
    }
    assert ToLower(ToLower(line)) == ToLower(line);
  }

  /** An empty or all-blank line, such as pressing Enter alone, answers yes. */
  lemma BlankLineIsYes(line: string)
    requires IsBlank(line)
    ensures AnswerIsYes(line)
  {
    BlankIffTrimmedEmpty(line);
    AllSpaceRight(line);
    var l := ToLower(line);
    assert forall i :: 0 <= i < |l| ==> IsSpace(l[i]);
    BlankWhenAllSpace(l);
    BlankIffTrimmedEmpty(l);
  }
}
