/** The file-name handling of `download_files` in
    GuruCool-API/archive/GuruCoolAPI.py: documents with an empty url or name
    are skipped, a name without a '.' gets ".txt", each download is saved
    under that name, and an `OSError` from `open` ends the loop.

    The HTTP request is a parameter `fetch` (None when it raises a
    `RequestException`), and whether `open` succeeds for a name is a
    parameter `canWrite`; the directory is a map from file name to
    content, one flat key per name. */
module Downloads {
  import opened Wrappers

  /** A document entry: `doc.get('url')` and `doc.get('name')`. */
  datatype Document = Document(url: Option<string>, name: Option<string>)

  /** `not value`: a missing or empty string. */
  predicate Missing(value: Option<string>) {
    value.None? || value.value == []
  }

  /** The name the file is saved under. */
  function FileName(name: string): (r: string)
    ensures '.' in r
  {
    if '.' in name then name else name + ".txt"
  }

  /** A name with a '.' is kept; any other gets exactly ".txt" after it;
      applying the rule twice changes nothing more. */
  lemma FileNameShape(name: string)
    ensures '.' in name ==> FileName(name) == name
    ensures '.' !in name ==> FileName(name)[..|name|] == name
                             && FileName(name)[|name|..] == ".txt"
    ensures FileName(FileName(name)) == FileName(name)
  {
    assert '.' in FileName(name);
  }

  /** The directory when the loop ends, and whether an `OSError` from
      `open` escaped it (the files written before it stay). */
  datatype Download = Download(files: map<string, seq<bv8>>, raised: bool)

  /** Document `d` gets as far as `open`, and `open` fails there. */
  predicate WriteFails(d: Document, fetch: string -> Option<seq<bv8>>, canWrite: string -> bool) {
    !Missing(d.url) && !Missing(d.name) && fetch(d.url.value).Some?
    && !canWrite(FileName(d.name.value))
  }

  /** The outcome of handling the documents in order: a later file of the
      same name replaces an earlier one, and a failing `open` stops the
      loop. */
  function Saved(dir: map<string, seq<bv8>>, documents: seq<Document>,
                 fetch: string -> Option<seq<bv8>>, canWrite: string -> bool): Download
    decreases |documents|
  {
    if |documents| == 0 then Download(dir, false)
    else
      var d := documents[0];
      if Missing(d.url) || Missing(d.name) then Saved(dir, documents[1..], fetch, canWrite)
      else match fetch(d.url.value)
        case None => Saved(dir, documents[1..], fetch, canWrite)
        case Some(content) =>
          if !canWrite(FileName(d.name.value)) then Download(dir, true)
          else Saved(dir[FileName(d.name.value) := content], documents[1..], fetch, canWrite)
  }

  /** Every file added comes from a document with a url and a name, saved
      under that name's normalised form, and has a '.' in its name. */
  lemma {:induction false} SavedNames(dir: map<string, seq<bv8>>, documents: seq<Document>,
                                      fetch: string -> Option<seq<bv8>>, canWrite: string -> bool,
                                      f: string)
    requires f in Saved(dir, documents, fetch, canWrite).files && f !in dir
    ensures '.' in f
    ensures exists i :: 0 <= i < |documents| && !Missing(documents[i].url)
                        && !Missing(documents[i].name) && FileName(documents[i].name.value) == f
    decreases |documents|
  {
    var d := documents[0];
    if Missing(d.url) || Missing(d.name) || fetch(d.url.value).None? {
      SavedNames(dir, documents[1..], fetch, canWrite, f);
      var i :| 0 <= i < |documents[1..]| && !Missing(documents[1..][i].url)
               && !Missing(documents[1..][i].name) && FileName(documents[1..][i].name.value) == f;
      assert documents[i + 1] == documents[1..][i];
    } else if canWrite(FileName(d.name.value)) {
      var next := dir[FileName(d.name.value) := fetch(d.url.value).value];
      if f == FileName(d.name.value) {
      } else {
        SavedNames(next, documents[1..], fetch, canWrite, f);
        var i :| 0 <= i < |documents[1..]| && !Missing(documents[1..][i].url)
                 && !Missing(documents[1..][i].name) && FileName(documents[1..][i].name.value) == f;
        assert documents[i + 1] == documents[1..][i];
      }
    }
  }

  /** Files already in the directory stay unless a document replaces them,
      whether or not the loop is cut short. */
  lemma {:induction false} SavedKeeps(dir: map<string, seq<bv8>>, documents: seq<Document>,
                                      fetch: string -> Option<seq<bv8>>, canWrite: string -> bool)
    ensures dir.Keys <= Saved(dir, documents, fetch, canWrite).files.Keys
    decreases |documents|
  {
    if |documents| > 0 {
      var d := documents[0];
      if Missing(d.url) || Missing(d.name) || fetch(d.url.value).None? {
        SavedKeeps(dir, documents[1..], fetch, canWrite);
      } else if canWrite(FileName(d.name.value)) {
        SavedKeeps(dir[FileName(d.name.value) := fetch(d.url.value).value], documents[1..],
                   fetch, canWrite);
      }
    }
  }

  /** Only `RequestException` is caught: the call raises exactly when some
      document reaches `open` and `open` fails. */
  lemma {:induction false} SavedRaisedIff(dir: map<string, seq<bv8>>, documents: seq<Document>,
                                          fetch: string -> Option<seq<bv8>>, canWrite: string -> bool)
    ensures Saved(dir, documents, fetch, canWrite).raised <==>
      exists i :: 0 <= i < |documents| && WriteFails(documents[i], fetch, canWrite)
    decreases |documents|
  {
    if |documents| > 0 {
      var d := documents[0];
      if WriteFails(d, fetch, canWrite) {
        assert WriteFails(documents[0], fetch, canWrite);
      } else {
        var next := if Missing(d.url) || Missing(d.name) || fetch(d.url.value).None? then dir
                    else dir[FileName(d.name.value) := fetch(d.url.value).value];
        SavedRaisedIff(next, documents[1..], fetch, canWrite);
        assert Saved(dir, documents, fetch, canWrite) == Saved(next, documents[1..], fetch, canWrite);
        if exists i :: 0 <= i < |documents| && WriteFails(documents[i], fetch, canWrite) {
          var i :| 0 <= i < |documents| && WriteFails(documents[i], fetch, canWrite);
          assert documents[1..][i - 1] == documents[i];
        }
        if exists j :: 0 <= j < |documents[1..]| && WriteFails(documents[1..][j], fetch, canWrite) {
          var j :| 0 <= j < |documents[1..]| && WriteFails(documents[1..][j], fetch, canWrite);
          assert documents[j + 1] == documents[1..][j];
        }
      }
    }
  }

  /** `download_files`: the loop over the documents. */
  method DownloadFiles(dir: map<string, seq<bv8>>, documents: seq<Document>,
                       fetch: string -> Option<seq<bv8>>, canWrite: string -> bool)
    returns (files: map<string, seq<bv8>>, raised: bool)
    ensures Download(files, raised) == Saved(dir, documents, fetch, canWrite)
  {
    files := dir;
    for i := 0 to |documents|
      invariant Saved(files, documents[i..], fetch, canWrite) == Saved(dir, documents, fetch, canWrite)
    {
      var d := documents[i];
      assert documents[i..][1..] == documents[i + 1..];
      if Missing(d.url) || Missing(d.name) {
        continue;
      }
      var fileName := d.name.value;
      if '.' !in fileName {
        fileName := fileName + ".txt";
      }
      var response := fetch(d.url.value);
      if response.None? {
        continue;
      }
      if !canWrite(fileName) {
        return files, true;
      }
      files := files[fileName := response.value];
    }
    assert documents[|documents|..] == [];
    raised := false;
  }
}
