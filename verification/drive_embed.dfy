/**
 * `getGoogleDriveEmbedUrl` of src/pages/LessonDetailPage.tsx: a Drive share
 * link is turned into an embeddable URL. The two regular expressions
 * `/\/file\/d\/([a-zA-Z0-9_-]+)/` and `/\/folders\/([a-zA-Z0-9_-]+)/` are
 * modelled as a leftmost search for the marker followed by a greedy run of
 * identifier characters.
 */
module DriveEmbed {
  import opened CourseTypes

  const FileMarker: string := "/file/d/"
  const FolderMarker: string := "/folders/"
  const FilePrefix: string := "https://drive.google.com/file/d/"
  const FileSuffix: string := "/preview"
  const FolderPrefix: string := "https://drive.google.com/embeddedfolderview?id="
  const FolderSuffix: string := "#grid"

  /** The character class `[a-zA-Z0-9_-]`. */
  predicate IsIdChar(c: char)
  {
    ('a' <= c <= 'z') || ('A' <= c <= 'Z') || ('0' <= c <= '9') || c == '_' || c == '-'
  }

  predicate AllIdChars(s: string)
  {
    forall i :: 0 <= i < |s| ==> IsIdChar(s[i])
  }

  /** The greedy `[a-zA-Z0-9_-]*` at the start of s: its longest prefix of identifier characters. */
  function IdRun(s: string): (r: string)
    ensures r <= s
    ensures AllIdChars(r)
    ensures |r| == |s| || !IsIdChar(s[|r|])
  {
    if s == [] || !IsIdChar(s[0]) then "" else [s[0]] + IdRun(s[1..])
  }

  /** The identifier run stops where the identifier characters stop. */
  lemma {:induction false} IdRunOfJoin(id: string, rest: string)
    requires AllIdChars(id)
    requires rest == [] || !IsIdChar(rest[0])
    ensures IdRun(id + rest) == id
  {
    if id != [] {
      assert (id + rest)[1..] == id[1..] + rest;
      IdRunOfJoin(id[1..], rest);
    } else {
      assert id + rest == rest;
    }
  }

  /** The pattern matches at position p: the marker, then at least one identifier character. */
  predicate MatchAt(url: string, marker: string, p: nat)
  {
    p + |marker| < |url| && url[p..p + |marker|] == marker && IsIdChar(url[p + |marker|])
  }

  /**
   * `url.match(pattern)?.[1]` with the search started at `from`: the
   * capture at the leftmost position where the pattern matches.
   */
  function FindId(url: string, marker: string, from: nat): (r: Option<string>)
    decreases |url| - from
    ensures r.Some? ==> r.value != [] && AllIdChars(r.value)
  {
    if from + |marker| >= |url| then None
    else if MatchAt(url, marker, from) then Some(IdRun(url[from + |marker|..]))
    else FindId(url, marker, from + 1)
  }

  /** The search fails exactly when the pattern matches nowhere from `from` on. */
  lemma {:induction false} FindIdNone(url: string, marker: string, from: nat)
    ensures FindId(url, marker, from).None? <==> forall p: nat :: from <= p ==> !MatchAt(url, marker, p)
    decreases |url| - from
  {
    if from + |marker| < |url| && !MatchAt(url, marker, from) {
      FindIdNone(url, marker, from + 1);
    }
  }

  /** The search returns the capture at the leftmost matching position. */
  lemma {:induction false} FindIdLeftmost(url: string, marker: string, from: nat, p: nat)
    requires from <= p && MatchAt(url, marker, p)
    requires forall q: nat :: from <= q < p ==> !MatchAt(url, marker, q)
    ensures FindId(url, marker, from) == Some(IdRun(url[p + |marker|..]))
    decreases p - from
  {
    if from < p {
      assert !MatchAt(url, marker, from);
      FindIdLeftmost(url, marker, from + 1, p);
    }
  }

  /** With the search started at 0: a match at the leftmost matching position yields that position's capture. */
  lemma LeftmostCapture(url: string, marker: string, p: nat)
    requires MatchAt(url, marker, p)
    requires forall q: nat :: q < p ==> !MatchAt(url, marker, q)
    ensures FindId(url, marker, 0) == Some(IdRun(url[p + |marker|..]))
  {
    FindIdLeftmost(url, marker, 0, p);
  }

  /** `getGoogleDriveEmbedUrl`. */
  function EmbedUrl(url: string): (r: string)
    ensures || r == url
            || (exists id :: id != [] && AllIdChars(id) && r == FilePrefix + id + FileSuffix)
            || (exists id :: id != [] && AllIdChars(id) && r == FolderPrefix + id + FolderSuffix)
  {
    match FindId(url, FileMarker, 0)
    case Some(id) => FilePrefix + id + FileSuffix
    case None =>
      match FindId(url, FolderMarker, 0)
      case Some(id) => FolderPrefix + id + FolderSuffix
      case None => url
  }

  /** A file link becomes the preview URL of the id after the leftmost `/file/d/`, whatever else it holds. */
  lemma EmbedFileLink(url: string, p: nat)
    requires MatchAt(url, FileMarker, p)
    requires forall q: nat :: q < p ==> !MatchAt(url, FileMarker, q)
    ensures EmbedUrl(url) == FilePrefix + IdRun(url[p + |FileMarker|..]) + FileSuffix
  {
    LeftmostCapture(url, FileMarker, p);
  }

  /** Without a file id, a folder link becomes the embedded-folder URL of its leftmost folder id. */
  lemma EmbedFolderLink(url: string, p: nat)
    requires forall q: nat :: !MatchAt(url, FileMarker, q)
    requires MatchAt(url, FolderMarker, p)
    requires forall q: nat :: q < p ==> !MatchAt(url, FolderMarker, q)
    ensures EmbedUrl(url) == FolderPrefix + IdRun(url[p + |FolderMarker|..]) + FolderSuffix
  {
    FindIdNone(url, FileMarker, 0);
    LeftmostCapture(url, FolderMarker, p);
  }

  /** Any other URL is returned unchanged. */
  lemma EmbedOtherUrl(url: string)
    requires forall q: nat :: !MatchAt(url, FileMarker, q)
    requires forall q: nat :: !MatchAt(url, FolderMarker, q)
    ensures EmbedUrl(url) == url
  {
    FindIdNone(url, FileMarker, 0);
    FindIdNone(url, FolderMarker, 0);
  }

  /** The file pattern wins: any file match gives a preview URL, folder match or not. */
  lemma FileTakesPrecedence(url: string, p: nat)
    requires MatchAt(url, FileMarker, p)
    ensures exists id :: id != [] && AllIdChars(id) && EmbedUrl(url) == FilePrefix + id + FileSuffix
  {
    FindIdNone(url, FileMarker, 0);
  }

  /** No "/" directly followed by "f" in s. */
  ghost predicate NoSlashF(s: string)
  {
    forall i :: 0 <= i < |s| - 1 ==> !(s[i] == '/' && s[i + 1] == 'f')
  }

  /** A string without "/f" is a concatenation of two without it that do not form one at the seam. */
  lemma NoSlashFJoin(a: string, b: string)
    requires NoSlashF(a) && NoSlashF(b)
    requires a == [] || b == [] || !(a[|a| - 1] == '/' && b[0] == 'f')
    ensures NoSlashF(a + b)
  {
    var s := a + b;
    forall i | 0 <= i < |s| - 1
      ensures !(s[i] == '/' && s[i + 1] == 'f')
    {
      if i + 1 < |a| {
        assert s[i] == a[i] && s[i + 1] == a[i + 1];
      } else if i + 1 == |a| {
        assert s[i] == a[i] && s[i + 1] == b[0];
      } else {
        assert s[i] == b[i - |a|] && s[i + 1] == b[i + 1 - |a|];
      }
    }
  }

  /** Neither marker (both begin with "/f") can match at a position where "/f" does not start. */
  lemma NoMatchWithoutSlashF(url: string, marker: string, q: nat)
    requires |marker| >= 2 && marker[0] == '/' && marker[1] == 'f'
    requires q + 1 < |url| ==> !(url[q] == '/' && url[q + 1] == 'f')
    ensures !MatchAt(url, marker, q)
  {
    if q + |marker| < |url| {
      assert url[q..q + |marker|][0] == url[q] && url[q..q + |marker|][1] == url[q + 1];
    }
  }

  const Host: string := "https://drive.google.com/"

  lemma HostHasNoSlashF(s: string)
    requires s == Host
    ensures NoSlashF(s)
  {
  }

  lemma FolderPrefixHasNoSlashF()
    ensures NoSlashF(FolderPrefix)
  {
    var tail := "embeddedfolderview?id=";
    assert NoSlashF(tail);
    HostHasNoSlashF(Host);
    NoSlashFJoin(Host, tail);
    assert Host + tail == FolderPrefix;
  }

  /** A preview URL is a fixed point of the rewrite. */
  lemma PreviewUrlUnchanged(id: string)
    requires id != [] && AllIdChars(id)
    ensures EmbedUrl(FilePrefix + id + FileSuffix) == FilePrefix + id + FileSuffix
  {
    var v := FilePrefix + id + FileSuffix;
    var p := |Host| - 1;
    assert FilePrefix == Host + "file/d/";
    assert v[p..p + |FileMarker|] == FileMarker;
    assert v[p + |FileMarker|..] == id + FileSuffix;
    HostHasNoSlashF(Host);
    forall q: nat | q < p
      ensures !MatchAt(v, FileMarker, q)
    {
      assert v[q] == Host[q] && v[q + 1] == Host[q + 1];
      NoMatchWithoutSlashF(v, FileMarker, q);
    }
    IdRunOfJoin(id, FileSuffix);
    EmbedFileLink(v, p);
  }

  /** An embedded-folder URL is a fixed point of the rewrite. */
  lemma FolderViewUrlUnchanged(id: string)
    requires id != [] && AllIdChars(id)
    ensures EmbedUrl(FolderPrefix + id + FolderSuffix) == FolderPrefix + id + FolderSuffix
  {
    var v := FolderPrefix + id + FolderSuffix;
    FolderPrefixHasNoSlashF();
    assert NoSlashF(id);
    assert NoSlashF(FolderSuffix);
    NoSlashFJoin(FolderPrefix, id);
    NoSlashFJoin(FolderPrefix + id, FolderSuffix);
    forall q: nat
      ensures !MatchAt(v, FileMarker, q) && !MatchAt(v, FolderMarker, q)
    {
      NoMatchWithoutSlashF(v, FileMarker, q);
      NoMatchWithoutSlashF(v, FolderMarker, q);
    }
    EmbedOtherUrl(v);
  }

  /** Rewriting an already rewritten URL changes nothing: the rewrite is idempotent. */
  lemma EmbedIdempotent(url: string)
    ensures EmbedUrl(EmbedUrl(url)) == EmbedUrl(url)
  {
    match FindId(url, FileMarker, 0) {
      case Some(id) => PreviewUrlUnchanged(id);
      case None =>
        match FindId(url, FolderMarker, 0) {
          case Some(id) => FolderViewUrlUnchanged(id);
          case None =>
        }
    }
  }
}
