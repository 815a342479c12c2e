/**
 * The string logic of `PDFProcessor`: trimming an input line to a document URL
 * (`process_url`) and naming the downloaded file after the URL's last path segment
 * (`download_pdf`).
 */
module Urls {
  import opened PyStrings

  /** The document-extension marker the URL is cut after. */
  const Marker: string := ".pdf"

  /**
   * `process_url`: the line up to and including the first `.pdf`. When the marker is
   * missing, `find` yields -1, the slice bound becomes 3, and the result is the line's
   * first three characters (fewer if the line is shorter) - reproduced as written.
   */
  function ProcessUrl(url: string): (r: string)
    ensures r <= url
    ensures Contains(url, Marker) ==>
      |r| >= |Marker| && r[|r| - |Marker|..] == Marker && FirstOccurrence(url, Marker, |r| - |Marker|)
    ensures !Contains(url, Marker) ==> r == url[..Min(3, |url|)]
  {
    SliceTo(url, Find(url, Marker) + |Marker|)
  }

  /** Normalising an already normalised URL changes nothing, with or without the marker. */
  lemma {:induction false} ProcessUrlIdempotent(url: string)
    ensures ProcessUrl(ProcessUrl(url)) == ProcessUrl(url)
  {
    var r := ProcessUrl(url);
    if Contains(url, Marker) {
      var i := |r| - |Marker|;
      assert OccursAt(r, Marker, i);
      forall j | 0 <= j < i ensures !OccursAt(r, Marker, j) {
        if OccursAt(r, Marker, j) {
          assert r[j..j + |Marker|] == url[j..j + |Marker|];
          assert OccursAt(url, Marker, j);
        }
      }
      var f := Find(r, Marker);
      assert f != -1;
      assert f == i;
      assert r[..|r|] == r;
    } else {
      assert !Contains(r, Marker);
    }
  }

  /**
   * Whatever follows the first marker - the line terminator the file iterator leaves on
   * each line, or anything else - is dropped.
   */
  lemma {:induction false} ProcessUrlDropsTail(x: string, tail: string)
    requires FirstOccurrence(x, Marker, |x| - |Marker|)
    ensures ProcessUrl(x + tail) == x
  {
    var u := x + tail;
    var i := |x| - |Marker|;
    assert u[i..i + |Marker|] == x[i..i + |Marker|];
    assert OccursAt(u, Marker, i);
    forall j | 0 <= j < i ensures !OccursAt(u, Marker, j) {
      if OccursAt(u, Marker, j) {
        assert u[j..j + |Marker|] == x[j..j + |Marker|];
        assert OccursAt(x, Marker, j);
      }
    }
    assert Find(u, Marker) == i;
    assert u[..|x|] == x;
  }

  /**
   * `url.split("/")[-1]`: the text after the last `/`. It holds no `/`, it ends the URL,
   * it is the whole URL when there is no `/`, and otherwise the URL is some prefix, a `/`,
   * and the name.
   */
  function FileName(url: string): (name: string)
    ensures '/' !in name
    ensures |name| <= |url| && url[|url| - |name|..] == name
    ensures '/' !in url ==> name == url
    ensures '/' in url ==> |name| < |url| && url == url[..|url| - |name| - 1] + "/" + name
  {
    var parts := Split(url, '/');
    SplitPiecesFree(url, '/');
    JoinSplit(url, '/');
    if '/' in url then
      assert |parts| > 1;
      assert url == Join(parts[..|parts| - 1], '/') + "/" + Last(parts);
      Last(parts)
    else
      SplitWithoutSep(url, '/');
      Last(parts)
  }

  /**
   * `os.path.join(directory, name)` on POSIX: an absolute `name` replaces the directory;
   * otherwise a `/` is inserted unless the directory is empty or already ends with one.
   */
  function PathJoin(directory: string, name: string): (path: string)
    ensures |name| > 0 && name[0] == '/' ==> path == name
    ensures (|name| == 0 || name[0] != '/') ==>
      if directory == [] || directory[|directory| - 1] == '/' then path == directory + name
      else path == directory + "/" + name
    ensures |name| <= |path| && path[|path| - |name|..] == name
    ensures '/' !in name ==> FileName(path) == name && directory <= path
  {
    if |name| > 0 && name[0] == '/' then name
    else if directory == [] then
      (if '/' !in name then SplitWithoutSep(name, '/'); name else name)
    else if directory[|directory| - 1] == '/' then
      var path := directory + name;
      assert path == directory[..|directory| - 1] + ['/'] + name;
      (if '/' !in name then LastPieceAfterSep(directory[..|directory| - 1], name, '/'); path else path)
    else
      var path := directory + "/" + name;
      (if '/' !in name then LastPieceAfterSep(directory, name, '/'); path else path)
  }
}
