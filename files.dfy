/**
 * The file system the page generators write to, as a map from path to
 * contents, together with the sequence of `writeFile` calls made on it.
 */
module Files {

  datatype Write = Write(path: string, contents: string)

  /** The files after the writes `ws`, made in order, to the files `files`. */
  function Applied(files: map<string, string>, ws: seq<Write>): map<string, string>
    decreases |ws|
  {
    if ws == [] then files
    else
      var last := ws[|ws| - 1];
      Applied(files, ws[..|ws| - 1])[last.path := last.contents]
  }

  /** A path no write names keeps what it had (or stays absent). */
  lemma {:induction false} AppliedUntouched(files: map<string, string>, ws: seq<Write>, p: string)
    requires forall k :: 0 <= k < |ws| ==> ws[k].path != p
    ensures p in Applied(files, ws) <==> p in files
    ensures p in files ==> Applied(files, ws)[p] == files[p]
    decreases |ws|
  {
    if ws != [] {
      AppliedUntouched(files, ws[..|ws| - 1], p);
    }
  }

  /** A path written by `ws[j]` and by no later write holds what `ws[j]` wrote. */
  lemma {:induction false} AppliedLast(files: map<string, string>, ws: seq<Write>, j: nat)
    requires j < |ws|
    requires forall k :: j < k < |ws| ==> ws[k].path != ws[j].path
    ensures ws[j].path in Applied(files, ws)
    ensures Applied(files, ws)[ws[j].path] == ws[j].contents
    decreases |ws|
  {
    if j < |ws| - 1 {
      AppliedLast(files, ws[..|ws| - 1], j);
    }
  }

  /**
   * After the writes, the path of `ws[i]` holds what the last write to that
   * path wrote: later writes to a path overwrite earlier ones.
   */
  lemma {:induction false} LastWriterWins(files: map<string, string>, ws: seq<Write>, i: nat)
    requires i < |ws|
    ensures ws[i].path in Applied(files, ws)
    ensures exists j :: i <= j < |ws| && LastWriteTo(ws, ws[i].path, j) && Applied(files, ws)[ws[i].path] == ws[j].contents
    decreases |ws| - i
  {
    var p := ws[i].path;
    if forall k :: i < k < |ws| ==> ws[k].path != p {
      AppliedLast(files, ws, i);
      assert LastWriteTo(ws, p, i);
    } else {
      var k :| i < k < |ws| && ws[k].path == p;
      LastWriterWins(files, ws, k);
    }
  }

  /** `ws[j]` is the last write to `p`. */
  predicate LastWriteTo(ws: seq<Write>, p: string, j: int) {
    0 <= j < |ws| && ws[j].path == p && forall k :: j < k < |ws| ==> ws[k].path != p
  }

  /** The files a generator writes to, with a log of its writes. */
  class FileSystem {
    var files: map<string, string>
    var history: seq<Write>

    constructor (initial: map<string, string>)
      ensures files == initial && history == []
    {
      files := initial;
      history := [];
    }

    /** `writeFile(path, contents)`: the file at `path` now holds `contents`. */
    method WriteFile(path: string, contents: string)
      modifies this
      ensures files == old(files)[path := contents]
      ensures history == old(history) + [Write(path, contents)]
    {
      files := files[path := contents];
      history := history + [Write(path, contents)];
    }
  }

  /** Applying one more write is updating the map once more. */
  lemma AppliedSnoc(files: map<string, string>, ws: seq<Write>, w: Write)
    ensures Applied(files, ws + [w]) == Applied(files, ws)[w.path := w.contents]
  {
    assert (ws + [w])[..|ws|] == ws;
  }

  /** One more write of the list, applied. */
  lemma AppliedPrefix(files: map<string, string>, ws: seq<Write>, i: int)
    requires 0 <= i < |ws|
    ensures ws[..i + 1] == ws[..i] + [ws[i]]
    ensures Applied(files, ws[..i + 1]) == Applied(files, ws[..i])[ws[i].path := ws[i].contents]
  {
    assert ws[..i + 1] == ws[..i] + [ws[i]];
    AppliedSnoc(files, ws[..i], ws[i]);
  }
}
