/**
 * Formatting of result lines (`print_hash`): a comma-separated
 * `hash,label,path` line for an output file, and a space-separated
 * `hash label relative-path` line for standard output, where the relative
 * path is the canonical path with the working directory stripped
 * component by component.
 */
module Sink {
  import opened Wrappers
  import opened Processor

  /** A path as the sequence of its components below the root ("/a/b" is ["a", "b"]). */
  type Path = seq<string>

  /** The result destination; standard output remembers the canonical working directory. */
  datatype Output = File | Stdout(workingDir: Path)

  /** The components joined with '/'. */
  function Join(components: seq<string>): string {
    if components == [] then ""
    else if |components| == 1 then components[0]
    else components[0] + "/" + Join(components[1..])
  }

  /** How an absolute path is displayed. */
  function Display(p: Path): string {
    "/" + Join(p)
  }

  /** `Path::strip_prefix`: the rest of `p` after `base`, when `base` is made of `p`'s leading components. */
  function StripPrefix(p: Path, base: Path): (r: Option<Path>)
    ensures r.Some? <==> base <= p
    ensures r.Some? ==> base + r.value == p
  {
    if |base| <= |p| && p[..|base|] == base then Some(p[|base|..]) else None
  }

  /** Stripping a prefix undoes prepending it. */
  lemma StripJoined(base: Path, rel: Path)
    ensures StripPrefix(base + rel, base) == Some(rel)
  {
  }

  /** The content-type column: the type's name, or "EMPTY" when the file had no content. */
  function Label(t: Option<ContentType>): (r: string)
    ensures ParseLabel(r) == Some(t)
    ensures ',' !in r && ' ' !in r
  {
    match t
    case None => "EMPTY"
    case Some(BINARY) => "BINARY"
    case Some(UTF_8) => "UTF_8"
    case Some(UTF_8_BOM) => "UTF_8_BOM"
    case Some(UTF_16LE) => "UTF_16LE"
    case Some(UTF_16BE) => "UTF_16BE"
    case Some(UTF_32LE) => "UTF_32LE"
    case Some(UTF_32BE) => "UTF_32BE"
  }

  /** Reads a content-type column back. */
  function ParseLabel(s: string): Option<Option<ContentType>> {
    if s == "EMPTY" then Some(None)
    else if s == "BINARY" then Some(Some(BINARY))
    else if s == "UTF_8" then Some(Some(UTF_8))
    else if s == "UTF_8_BOM" then Some(Some(UTF_8_BOM))
    else if s == "UTF_16LE" then Some(Some(UTF_16LE))
    else if s == "UTF_16BE" then Some(Some(UTF_16BE))
    else if s == "UTF_32LE" then Some(Some(UTF_32LE))
    else if s == "UTF_32BE" then Some(Some(UTF_32BE))
    else None
  }

  /** Three fields separated by `sep`. */
  function Record(sep: char, a: string, b: string, c: string): string {
    a + ([sep] + (b + ([sep] + c)))
  }

  /** Position of the first `c` in `s`. */
  function FirstIndex(s: string, c: char): (r: Option<nat>)
    ensures r.Some? ==> r.value < |s| && s[r.value] == c && c !in s[..r.value]
    ensures r.None? ==> c !in s
  {
    if s == [] then None
    else if s[0] == c then Some(0)
    else
      match FirstIndex(s[1..], c)
      case None => None
      case Some(k) =>
        assert s[..k + 1] == [s[0]] + s[1..][..k];
        Some(k + 1)
  }

  lemma {:induction false} FirstIndexAfter(a: string, c: char, rest: string)
    requires c !in a
    ensures FirstIndex(a + ([c] + rest), c) == Some(|a|)
  {
    if a != [] {
      assert (a + ([c] + rest))[1..] == a[1..] + ([c] + rest);
      FirstIndexAfter(a[1..], c, rest);
    }
  }

  /** The pieces joined around `c` are what comes before and after position `|x|`. */
  lemma JoinCut(x: string, c: char, y: string)
    ensures (x + ([c] + y))[..|x|] == x
    ensures (x + ([c] + y))[|x| + 1..] == y
  {
  }

  /** A string is what comes before position `i`, the character there, and what follows. */
  lemma CutAt(s: string, i: nat)
    requires i < |s|
    ensures s == s[..i] + ([s[i]] + s[i + 1..])
  {
  }

  /** Splits a line at its first two separators; the last field may contain more. */
  function SplitRecord(sep: char, line: string): (r: Option<(string, string, string)>)
    ensures r.Some? ==> sep !in r.value.0 && sep !in r.value.1
    ensures r.Some? ==> Record(sep, r.value.0, r.value.1, r.value.2) == line
  {
    match FirstIndex(line, sep)
    case None => None
    case Some(i) =>
      var tail := line[i + 1..];
      match FirstIndex(tail, sep)
      case None => None
      case Some(j) =>
        CutAt(line, i);
        CutAt(tail, j);
        Some((line[..i], tail[..j], tail[j + 1..]))
  }

  /** A record whose first two fields are free of the separator splits back into its fields. */
  lemma RecordRoundTrip(sep: char, a: string, b: string, c: string)
    requires sep !in a && sep !in b
    ensures SplitRecord(sep, Record(sep, a, b, c)) == Some((a, b, c))
  {
    var tail := b + ([sep] + c);
    var line := Record(sep, a, b, c);
    assert FirstIndex(line, sep) == Some(|a|) && line[..|a|] == a && line[|a| + 1..] == tail by {
      FirstIndexAfter(a, sep, tail);
      JoinCut(a, sep, tail);
    }
    assert FirstIndex(tail, sep) == Some(|b|) && tail[..|b|] == b && tail[|b| + 1..] == c by {
      FirstIndexAfter(b, sep, c);
      JoinCut(b, sep, c);
    }
  }

  lemma DigestHasNoSeparator(h: Digest)
    ensures ',' !in h && ' ' !in h
  {
  }

  /**
   * The result line for `entry` found at `path`, or `None` where the source
   * panics: standard output needs the canonical path (from `canonicalize`)
   * to lie under the working directory.
   */
  function PrintHash(output: Output, entry: ParsedFile, path: Path, canonicalize: Path -> Option<Path>): (r: Option<string>)
    ensures output.File? ==> r.Some?
    ensures output.Stdout? ==> (r.Some? <==> canonicalize(path).Some? && output.workingDir <= canonicalize(path).value)
  {
    var typeLabel := Label(entry.contentType);
    match output
    case File => Some(Record(',', entry.hash, typeLabel, Display(path)))
    case Stdout(workingDir) =>
      match canonicalize(path)
      case None => None
      case Some(absolute) =>
        match StripPrefix(absolute, workingDir)
        case None => None
        case Some(rel) => Some(Record(' ', entry.hash, typeLabel, Join(rel)))
  }

  /**
   * What a result line says: for an output file it splits at commas into the
   * digest, the type label and the displayed path; for standard output it
   * exists exactly when the canonical path lies under the working directory,
   * and splits at spaces into the digest, the label and the relative path,
   * which the working directory extends back to the canonical path.
   */
  lemma PrintHashFields(output: Output, entry: ParsedFile, path: Path, canonicalize: Path -> Option<Path>)
    ensures var r := PrintHash(output, entry, path, canonicalize);
      && (output.File? ==> r.Some? && SplitRecord(',', r.value) == Some((entry.hash, Label(entry.contentType), Display(path))))
      && (output.Stdout? ==> (r.Some? <==> canonicalize(path).Some? && output.workingDir <= canonicalize(path).value))
      && (output.Stdout? && r.Some? ==>
            var absolute := canonicalize(path).value;
            var rel := absolute[|output.workingDir|..];
            && output.workingDir + rel == absolute
            && SplitRecord(' ', r.value) == Some((entry.hash, Label(entry.contentType), Join(rel))))
  {
    var typeLabel := Label(entry.contentType);
    DigestHasNoSeparator(entry.hash);
    match output
    case File =>
      RecordRoundTrip(',', entry.hash, typeLabel, Display(path));
    case Stdout(workingDir) =>
      if canonicalize(path).Some? && workingDir <= canonicalize(path).value {
        var absolute := canonicalize(path).value;
        RecordRoundTrip(' ', entry.hash, typeLabel, Join(absolute[|workingDir|..]));
      }
  }
}
