/**
 * Upload validation: the extension of the file name, lower-cased, must be one
 * of ".txt", ".pdf", ".docx".
 */
module FileTypes {
  import opened TextOps

  /** The extensions `upload` accepts. */
  const SupportedExtensions: seq<string> := [".txt", ".pdf", ".docx"]

  /** The last index of `s` holding `c`, or -1 when there is none. */
  function LastIndexOf(s: string, c: char): (r: int)
    ensures -1 <= r < |s|
    ensures r >= 0 ==> s[r] == c
    ensures forall j :: r < j < |s| ==> s[j] != c
  {
    if s == [] then -1
    else if s[|s| - 1] == c then |s| - 1
    else LastIndexOf(s[..|s| - 1], c)
  }

  /**
   * The extension half of splitting a POSIX path: the part from the last dot
   * on, provided that dot lies after the last '/' and is not one of the leading
   * dots of the final path component; otherwise the empty string.
   */
  function SplitExt(p: string): (ext: string)
    ensures ext == [] || (ext[0] == '.' && |ext| <= |p| && ext == p[|p| - |ext|..])
    ensures forall j :: 1 <= j < |ext| ==> ext[j] != '.' && ext[j] != '/'
  {
    var sep := LastIndexOf(p, '/');
    var dot := LastIndexOf(p, '.');
    if dot > sep && HasStem(p, sep, dot) then p[dot..] else []
  }

  /** Some character strictly between `sep` and `dot` is not a dot. */
  predicate HasStem(p: string, sep: int, dot: int)
    requires -1 <= sep < dot <= |p|
  {
    exists j :: sep < j < dot && p[j] != '.'
  }

  /** The extension `upload` tests: lower-cased. */
  function Extension(filename: string): string {
    Lower(SplitExt(filename))
  }

  predicate IsSupported(ext: string) {
    ext in SupportedExtensions
  }

  /** `LastIndexOf` is determined by its contract. */
  lemma LastIndexIs(s: string, c: char, r: int)
    requires -1 <= r < |s|
    requires r >= 0 ==> s[r] == c
    requires forall j :: r < j < |s| ==> s[j] != c
    ensures LastIndexOf(s, c) == r
  {
  }

  /**
   * When the last dot of `p` comes after its last '/' and the final path
   * component has a character other than a dot before it, the extension is
   * everything from that dot on.
   */
  lemma SplitExtAt(p: string, dot: nat)
    requires dot < |p| && p[dot] == '.'
    requires forall j :: dot < j < |p| ==> p[j] != '.' && p[j] != '/'
    requires HasStem(p, LastIndexOf(p[..dot], '/'), dot)
    ensures SplitExt(p) == p[dot..]
  {
    LastIndexIs(p, '.', dot);
    var sep := LastIndexOf(p[..dot], '/');
    assert sep >= 0 ==> p[sep] == '/';
    LastIndexIs(p, '/', sep);
  }

  /**
   * The leading dots of the final path component belong to the root: when
   * everything between the last '/' and the last dot is a dot (".txt",
   * "dir/..pdf"), there is no extension.
   */
  lemma LeadingDotsNoExtension(p: string, sep: int, dot: nat)
    requires -1 <= sep < dot < |p|
    requires (sep >= 0 ==> p[sep] == '/') && forall j :: sep < j < |p| ==> p[j] != '/'
    requires p[dot] == '.' && forall j :: dot < j < |p| ==> p[j] != '.'
    requires forall j :: sep < j < dot ==> p[j] == '.'
    ensures SplitExt(p) == []
  {
    LastIndexIs(p, '/', sep);
    LastIndexIs(p, '.', dot);
  }

  /** A final path component without a dot ("README", "a.d/README") has no extension. */
  lemma NoDotNoExtension(p: string, sep: int)
    requires -1 <= sep < |p|
    requires (sep >= 0 ==> p[sep] == '/') && forall j :: sep < j < |p| ==> p[j] != '/' && p[j] != '.'
    ensures SplitExt(p) == []
  {
    LastIndexIs(p, '/', sep);
  }

  /** An upper-case extension is accepted: "Report.PDF" has extension ".pdf". */
  lemma UpperCaseExtensionAccepted()
    ensures Extension("Report.PDF") == ".pdf" && IsSupported(Extension("Report.PDF"))
  {
    var report := "Report.PDF";
    LastIndexIs(report[..6], '/', -1);
    assert report[0] != '.';
    SplitExtAt(report, 6);
    assert Lower(".PDF") == ".pdf";
  }

  /** Only the part after the last dot counts: "notes.tar.txt" has extension ".txt". */
  lemma LastDotExtension()
    ensures Extension("notes.tar.txt") == ".txt" && IsSupported(Extension("notes.tar.txt"))
  {
    var notes := "notes.tar.txt";
    LastIndexIs(notes[..9], '/', -1);
    assert notes[0] != '.';
    SplitExtAt(notes, 9);
    assert Lower(".txt") == ".txt";
  }

  /** A bare dot-file name such as ".txt" and a name without a dot have no extension and are rejected. */
  lemma ExtensionRejected()
    ensures Extension(".txt") == [] && !IsSupported(Extension(".txt"))
    ensures Extension("README") == [] && !IsSupported(Extension("README"))
  {
    assert SplitExt(".txt") == [];
    assert SplitExt("README") == [];
  }
}
