/**
 * The concepts page: the document title taken from an uploaded file's name
 * without its extension, the search box, and the slug the title's download
 * is named by.
 */
module ConceptsPage {
  import opened Text
  import opened Concepts
  import opened FileUpload

  /**
   * Where `/\.[^/.]+$/` matches: a dot at `i` followed, up to the end of
   * the name, by at least one character and by no "/" and no ".".
   */
  predicate ExtensionAt(name: string, i: int) {
    0 <= i < |name| - 1 && name[i] == '.' &&
    forall j :: i < j < |name| ==> name[j] != '/' && name[j] != '.'
  }

  /** The extension match, when there is one, sits at one place only. */
  lemma ExtensionUnique(name: string, i: int, k: int)
    requires ExtensionAt(name, i) && ExtensionAt(name, k)
    ensures i == k
  {
  }

  /** Length of the trailing run of characters that are neither "/" nor ".". */
  function TailLength(name: string): (n: nat)
    ensures n <= |name|
    ensures forall j :: |name| - n <= j < |name| ==> name[j] != '/' && name[j] != '.'
    ensures n < |name| ==> name[|name| - n - 1] == '/' || name[|name| - n - 1] == '.'
  {
    if name == [] || name[|name| - 1] == '/' || name[|name| - 1] == '.' then 0
    else TailLength(name[..|name| - 1]) + 1
  }

  /** `name.replace(/\.[^/.]+$/, "")`: the name with its last extension removed, when it has one. */
  function StripExtension(name: string): (r: string)
    ensures forall i :: ExtensionAt(name, i) ==> r == name[..i]
    ensures (forall i :: !ExtensionAt(name, i)) ==> r == name
  {
    var n := TailLength(name);
    if 0 < n < |name| && name[|name| - n - 1] == '.' then
      assert ExtensionAt(name, |name| - n - 1);
      name[..|name| - n - 1]
    else
      name
  }

  /** Only the last extension goes. */
  lemma StripLastExtensionOnly()
    ensures StripExtension("notes.tar.gz") == "notes.tar"
  {
    assert ExtensionAt("notes.tar.gz", 9);
  }

  /** A name that is nothing but a leading-dot extension becomes empty. */
  lemma StripDotFile()
    ensures StripExtension(".env") == ""
  {
    assert ExtensionAt(".env", 0);
  }

  /** A name ending in a dot, with a "/" after its last dot, or with no dot keeps its text. */
  lemma StripKeepsUnmatched()
    ensures StripExtension("a.") == "a."
    ensures StripExtension("a.b/c") == "a.b/c"
    ensures StripExtension("README") == "README"
  {
  }

  /** Stripping never lengthens a name, and what remains is a prefix of it. */
  lemma StripIsPrefix(name: string)
    ensures StripExtension(name) <= name
  {
  }

  /** Stripping a second time removes the next extension, never the same one twice. */
  lemma StripTwice(stem: string, ext: string)
    requires ext != [] && forall j :: 0 <= j < |ext| ==> ext[j] != '/' && ext[j] != '.'
    ensures StripExtension(stem + "." + ext) == stem
  {
    assert ExtensionAt(stem + "." + ext, |stem|);
  }

  class ConceptsPage {
    var documentTitle: string
    var searchQuery: string

    constructor()
      ensures documentTitle == "Introduction to Psychology"
      ensures searchQuery == ""
    {
      documentTitle := "Introduction to Psychology";
      searchQuery := "";
    }

    /** The search box's `onChange`. */
    method SetSearchQuery(query: string)
      modifies this
      ensures searchQuery == query
      ensures documentTitle == old(documentTitle)
    {
      searchQuery := query;
    }

    /** `handleFileUpload`: the first file's name, without its extension, becomes the title; no file changes nothing. */
    method HandleFileUpload(files: seq<FileInfo>)
      modifies this
      ensures files == [] ==> documentTitle == old(documentTitle)
      ensures files != [] ==> documentTitle == StripExtension(files[0].name)
      ensures searchQuery == old(searchQuery)
    {
      if |files| > 0 {
        documentTitle := StripExtension(files[0].name);
      }
    }

    /** The page's download file name: the title's slug, which never holds whitespace. */
    function DownloadFilename(): (r: string)
      reads this
      ensures forall i :: 0 <= i < |r| ==> !IsWhitespace(r[i])
      ensures |r| <= |documentTitle|
    {
      Slug(documentTitle)
    }
  }
}
