/** The photo upload widget of the product form (`PhotosUpload`), without the
    browser: the staged `files` list, the `files` of the file input, the child
    nodes of the preview container that `hasLimit` counts, and the value of
    the hidden `removed_files` field. */
module PhotosUpload {
  import opened Wrappers

  /** A child node of the preview container: an element with its `class`
      attribute, or a node without a class list (a text node). */
  datatype Node = Element(classValue: string) | Text

  predicate IsPhoto(n: Node) {
    n.Element? && n.classValue == "photo"
  }

  /** The photo elements among `nodes`, in document order. */
  function Photos(nodes: seq<Node>): (r: seq<Node>)
    ensures |r| <= |nodes|
    ensures forall i :: 0 <= i < |r| ==> IsPhoto(r[i]) && r[i] in nodes
    ensures forall i :: 0 <= i < |nodes| && IsPhoto(nodes[i]) ==> nodes[i] in r
  {
    if nodes == [] then []
    else
      var last := nodes[|nodes| - 1];
      assert nodes == nodes[..|nodes| - 1] + [last];
      Photos(nodes[..|nodes| - 1]) + (if IsPhoto(last) then [last] else [])
  }

  /** Each photo element is collected as often as it occurs in the preview,
      and nothing else is. */
  lemma {:induction false} PhotosMultiset(nodes: seq<Node>)
    ensures forall n :: multiset(Photos(nodes))[n] == if IsPhoto(n) then multiset(nodes)[n] else 0
  {
    if nodes != [] {
      var init, last := nodes[..|nodes| - 1], nodes[|nodes| - 1];
      assert nodes == init + [last];
      PhotosMultiset(init);
    }
  }

  /** Appending a node to the preview appends it to the photos exactly when
      it is a photo. */
  lemma PhotosSnoc(nodes: seq<Node>, n: Node)
    ensures Photos(nodes + [n]) == Photos(nodes) + (if IsPhoto(n) then [n] else [])
  {
    assert (nodes + [n])[..|nodes|] == nodes;
  }

  const UPLOAD_LIMIT: nat := 6

  /** The two tests of `hasLimit`: too many files picked at once, or too many
      once the photos already shown are added.  Counts cannot be negative, so
      the first test is implied by the second: a pick is refused exactly when
      it and the shown photos total more than 6. */
  function OverLimit(incoming: nat, shown: nat): (over: bool)
    ensures incoming > UPLOAD_LIMIT ==> over
    ensures over <==> incoming + shown > UPLOAD_LIMIT
  {
    incoming > UPLOAD_LIMIT || incoming + shown > UPLOAD_LIMIT
  }

  /** The position `Array.prototype.splice(start, 1)` works at: a negative
      start counts from the end, and every start is clamped to `[0, len]`. */
  function SpliceStart(len: nat, start: int): (k: nat)
    ensures k <= len
    ensures 0 <= start <= len ==> k == start
    ensures start < 0 && len + start >= 0 ==> k == len + start
    ensures start > len ==> k == len
    ensures len + start < 0 ==> k == 0
  {
    if start < 0 then (if len + start < 0 then 0 else len + start)
    else if start > len then len
    else start
  }

  /** `s.splice(start, 1)`: the entry at the splice position is removed and
      the others keep their order; past the end nothing is removed. */
  function SpliceOne<T>(s: seq<T>, start: int): (r: seq<T>)
    ensures var k := SpliceStart(|s|, start);
            if k < |s| then
              |r| == |s| - 1 &&
              (forall j :: 0 <= j < k ==> r[j] == s[j]) &&
              (forall j :: k <= j < |r| ==> r[j] == s[j + 1]) &&
              multiset(r) + multiset{s[k]} == multiset(s)
            else r == s
  {
    var k := SpliceStart(|s|, start);
    if k < |s| then
      assert s == s[..k] + [s[k]] + s[k + 1..];
      s[..k] + s[k + 1..]
    else s
  }

  /** `photoDiv.remove()` on the preview: the node at position `at` leaves it
      and the others keep their order; a position outside the preview leaves
      every node in place. */
  function WithoutNode(nodes: seq<Node>, at: int): (r: seq<Node>)
    ensures 0 <= at < |nodes| ==>
              |r| == |nodes| - 1 &&
              (forall j :: 0 <= j < at ==> r[j] == nodes[j]) &&
              (forall j :: at <= j < |r| ==> r[j] == nodes[j + 1])
    ensures !(0 <= at < |nodes|) ==> r == nodes
  {
    if 0 <= at < |nodes| then
      nodes[..at] + nodes[at + 1..]
    else nodes
  }

  /** Taking a node out of the preview lowers its photo count by one exactly
      when that node is a photo. */
  lemma RemovedPhotoCount(nodes: seq<Node>, at: nat)
    requires at < |nodes|
    ensures |Photos(WithoutNode(nodes, at))| == |Photos(nodes)| - (if IsPhoto(nodes[at]) then 1 else 0)
  {
    var r := WithoutNode(nodes, at);
    assert nodes == nodes[..at] + [nodes[at]] + nodes[at + 1..];
    assert multiset(nodes) == multiset(r) + multiset{nodes[at]};
    PhotoCount(r);
    PhotoCount(nodes);
  }

  /** The number of photos is the number of photo elements, counted through
      the multiset of nodes. */
  lemma PhotoCount(nodes: seq<Node>)
    ensures |Photos(nodes)| == multiset(nodes)[Element("photo")]
  {
    var r := Photos(nodes);
    PhotosMultiset(nodes);
    assert forall n :: n in multiset(r) ==> n == Element("photo");
    assert multiset(r) == multiset{}[Element("photo") := multiset(r)[Element("photo")]];
  }

  /** The number of element nodes among `nodes` (`children` leaves the text
      nodes out). */
  function ElementCount(nodes: seq<Node>): (c: nat)
    ensures c <= |nodes|
  {
    if nodes == [] then 0
    else ElementCount(nodes[..|nodes| - 1]) + (if nodes[|nodes| - 1].Element? then 1 else 0)
  }

  lemma {:induction false} ElementCountConcat(a: seq<Node>, b: seq<Node>)
    ensures ElementCount(a + b) == ElementCount(a) + ElementCount(b)
    decreases |b|
  {
    if b == [] {
      assert a + b == a;
    } else {
      var init := b[..|b| - 1];
      assert (a + b)[..|a + b| - 1] == a + init;
      ElementCountConcat(a, init);
    }
  }

  /** `preview.children`, by position: the positions of the element nodes,
      in document order. */
  function ElementPositions(nodes: seq<Node>): (r: seq<nat>)
    ensures |r| == ElementCount(nodes)
    ensures forall i :: 0 <= i < |r| ==> r[i] < |nodes| && nodes[r[i]].Element?
    ensures forall i, j :: 0 <= i < j < |r| ==> r[i] < r[j]
  {
    if nodes == [] then []
    else
      var init := nodes[..|nodes| - 1];
      assert forall i :: 0 <= i < |init| ==> init[i] == nodes[i];
      ElementPositions(init) + (if nodes[|nodes| - 1].Element? then [|nodes| - 1] else [])
  }

  /** The element positions of a prefix open those of the whole. */
  lemma {:induction false} ElementPositionsPrefix(nodes: seq<Node>, n: nat)
    requires n <= |nodes|
    ensures ElementPositions(nodes[..n]) <= ElementPositions(nodes)
    decreases |nodes| - n
  {
    if n < |nodes| {
      var init := nodes[..|nodes| - 1];
      assert init[..n] == nodes[..n];
      ElementPositionsPrefix(init, n);
    } else {
      assert nodes[..n] == nodes;
    }
  }

  /** `Array.from(preview.children).indexOf(photoDiv)` for the node at
      position `at` among the preview's child nodes: its place among the
      element children when it is an element of the preview, `-1` otherwise. */
  function ChildIndex(nodes: seq<Node>, at: int): (k: int)
    ensures k == -1 <==> !(0 <= at < |nodes| && nodes[at].Element?)
    ensures k != -1 ==> 0 <= k <= at && k < |ElementPositions(nodes)| && ElementPositions(nodes)[k] == at
  {
    if 0 <= at < |nodes| && nodes[at].Element? then
      var upTo := nodes[..at + 1];
      assert upTo[..at] == nodes[..at];
      assert ElementPositions(upTo) == ElementPositions(nodes[..at]) + [at];
      ElementPositionsPrefix(nodes, at + 1);
      ElementCount(nodes[..at])
    else -1
  }

  /** The index counts every element before the clicked one, old photos
      included: with the `shown` elements rendered before the new previews,
      the j-th new preview has index `|shown| + j`, not `j`. */
  lemma ChildIndexAfterOld(shown: seq<Node>, added: seq<Node>, j: nat)
    requires forall i :: 0 <= i < |shown| ==> shown[i].Element?
    requires forall i :: 0 <= i < |added| ==> added[i].Element?
    requires j < |added|
    ensures ChildIndex(shown + added, |shown| + j) == |shown| + j
  {
    var all := shown + added;
    assert all[..|shown| + j] == shown + added[..j];
    ElementCountConcat(shown, added[..j]);
    AllElements(shown);
    AllElements(added[..j]);
  }

  lemma {:induction false} AllElements(nodes: seq<Node>)
    requires forall i :: 0 <= i < |nodes| ==> nodes[i].Element?
    ensures ElementCount(nodes) == |nodes|
  {
    if nodes != [] {
      AllElements(nodes[..|nodes| - 1]);
    }
  }

  /** The `removed_files` field as the widget writes it: each id followed by
      a comma. */
  function JoinIds(ids: seq<string>): string {
    if ids == [] then ""
    else JoinIds(ids[..|ids| - 1]) + ids[|ids| - 1] + ","
  }

  /** Reading the field back: the comma-terminated ids, in order (text after
      the last comma is not an id). */
  function SplitIds(s: string): seq<string> {
    SplitFrom(s, "")
  }

  function SplitFrom(s: string, current: string): seq<string>
    decreases |s|
  {
    if s == [] then []
    else if s[0] == ',' then [current] + SplitFrom(s[1..], "")
    else SplitFrom(s[1..], current + [s[0]])
  }

  predicate CommaFree(ids: seq<string>) {
    forall i :: 0 <= i < |ids| ==> ',' !in ids[i]
  }

  lemma {:induction false} JoinIdsFront(ids: seq<string>)
    requires ids != []
    ensures JoinIds(ids) == ids[0] + "," + JoinIds(ids[1..])
    decreases |ids|
  {
    if |ids| > 1 {
      var init := ids[..|ids| - 1];
      JoinIdsFront(init);
      assert init[0] == ids[0];
      assert init[1..] == ids[1..][..|ids[1..]| - 1];
    } else {
      assert ids[1..] == [];
      assert ids[..0] == [];
    }
  }

  lemma {:induction false} SplitFromWord(w: string, current: string, rest: string)
    requires ',' !in w
    ensures SplitFrom(w + "," + rest, current) == [current + w] + SplitFrom(rest, "")
    decreases |w|
  {
    if w == [] {
      assert (w + "," + rest)[1..] == rest;
      assert current + w == current;
    } else {
      assert (w + "," + rest)[1..] == w[1..] + "," + rest;
      SplitFromWord(w[1..], current + [w[0]], rest);
      assert current + [w[0]] + w[1..] == current + w;
    }
  }

  /** Round trip of the field: ids without commas are read back as written. */
  lemma {:induction false} SplitJoin(ids: seq<string>)
    requires CommaFree(ids)
    ensures SplitIds(JoinIds(ids)) == ids
    decreases |ids|
  {
    if ids != [] {
      JoinIdsFront(ids);
      assert CommaFree(ids[1..]) by {
        forall i | 0 <= i < |ids[1..]| ensures ',' !in ids[1..][i] {
          assert ids[1..][i] == ids[i + 1];
        }
      }
      SplitJoin(ids[1..]);
      SplitFromWord(ids[0], "", JoinIds(ids[1..]));
      assert "" + ids[0] == ids[0];
    }
  }

  class PhotosUpload<File> {
    const uploadLimit: nat := UPLOAD_LIMIT
    /** `PhotosUpload.input.files`: what the file input currently holds. */
    var inputFiles: seq<File>
    /** `PhotosUpload.preview.childNodes`. */
    var preview: seq<Node>
    /** `PhotosUpload.files`: the files staged for upload. */
    var files: seq<File>
    /** The value of `input[name="removed_files"]`; `None` when the page has no such field. */
    var removedFiles: Option<string>
    /** The ids written into `removedFiles`, in order. */
    ghost var removedIds: seq<string>

    ghost predicate Valid()
      reads this
    {
      removedFiles.Some? ==> removedFiles.value == JoinIds(removedIds)
    }

    /** The widget as a page loads it: no staged files, an empty
        `removed_files` field when the page has one. */
    constructor (preview: seq<Node>, hasRemovedFilesField: bool)
      ensures Valid()
      ensures this.preview == preview && files == [] && inputFiles == []
      ensures removedFiles == (if hasRemovedFilesField then Some("") else None)
    {
      this.preview := preview;
      files := [];
      inputFiles := [];
      removedFiles := if hasRemovedFilesField then Some("") else None;
      removedIds := [];
    }

    /** `hasLimit`: true when the input holds more than `uploadLimit` files,
        or when those and the photos already in the preview exceed it. */
    method HasLimit() returns (rejected: bool)
      ensures rejected == OverLimit(|inputFiles|, |Photos(preview)|)
    {
      var fileList := inputFiles;
      if |fileList| > uploadLimit {
        return true;
      }
      var nodes := preview;
      var photosDiv: seq<Node> := [];
      var i := 0;
      while i < |nodes|
        invariant 0 <= i <= |nodes|
        invariant photosDiv == Photos(nodes[..i])
      {
        if IsPhoto(nodes[i]) {
          photosDiv := photosDiv + [nodes[i]];
        }
        assert nodes[..i + 1] == nodes[..i] + [nodes[i]];
        PhotosSnoc(nodes[..i], nodes[i]);
        i := i + 1;
      }
      assert nodes[..|nodes|] == nodes;
      var totalPhotos := |fileList| + |photosDiv|;
      if totalPhotos > uploadLimit {
        return true;
      }
      return false;
    }

    /** `handleFileInput` (list part): the input takes the picked files; a
        rejected pick stages nothing, an accepted one is appended, in order,
        after the files already staged, and the input is given them all. */
    method HandleFileInput(fileList: seq<File>)
      requires Valid()
      modifies this
      ensures Valid()
      ensures preview == old(preview) && removedFiles == old(removedFiles) && removedIds == old(removedIds)
      ensures OverLimit(|fileList|, |Photos(preview)|) ==> files == old(files) && inputFiles == fileList
      ensures !OverLimit(|fileList|, |Photos(preview)|) ==> files == old(files) + fileList && inputFiles == files
    {
      inputFiles := fileList;
      var rejected := HasLimit();
      if rejected {
        return;
      }
      var i := 0;
      while i < |fileList|
        invariant 0 <= i <= |fileList|
        invariant files == old(files) + fileList[..i]
        invariant inputFiles == fileList
        invariant preview == old(preview) && removedFiles == old(removedFiles) && removedIds == old(removedIds)
      {
        files := files + [fileList[i]];
        assert fileList[..i + 1] == fileList[..i] + [fileList[i]];
        i := i + 1;
      }
      assert fileList[..|fileList|] == fileList;
      inputFiles := files;
    }

    /** `removePhoto`: `files.splice(index, 1)` with the index the clicked
        photo has among the preview's children (`-1` when it is not one of
        them), then the input is given the remaining files and the clicked
        photo leaves the preview.  `node` is the clicked photo's position
        among the preview's child nodes; any other value means it is not in
        the preview, which then keeps all its nodes. */
    method RemovePhoto(node: int)
      requires Valid()
      modifies this
      ensures Valid()
      ensures removedFiles == old(removedFiles) && removedIds == old(removedIds)
      ensures files == SpliceOne(old(files), ChildIndex(old(preview), node)) && inputFiles == files
      ensures preview == WithoutNode(old(preview), node)
    {
      var index := ChildIndex(preview, node);
      files := SpliceOne(files, index);
      inputFiles := files;
      preview := WithoutNode(preview, node);
    }

    /** `removeOldPhoto`: a non-empty id is appended, with a trailing comma,
        to the `removed_files` field when the page has one; the clicked photo,
        at position `node` among the preview's child nodes, leaves the
        preview.  The field then reads back as the ids written into it. */
    method RemoveOldPhoto(id: string, node: int)
      requires Valid()
      modifies this
      ensures Valid()
      ensures files == old(files) && inputFiles == old(inputFiles)
      ensures preview == WithoutNode(old(preview), node)
      ensures if id != "" && old(removedFiles).Some? then
                removedFiles == Some(old(removedFiles).value + id + ",") && removedIds == old(removedIds) + [id]
              else
                removedFiles == old(removedFiles) && removedIds == old(removedIds)
      ensures CommaFree(removedIds) && removedFiles.Some? ==> SplitIds(removedFiles.value) == removedIds
    {
      if id != "" {
        if removedFiles.Some? {
          removedFiles := Some(removedFiles.value + id + ",");
          removedIds := removedIds + [id];
          assert removedIds[..|removedIds| - 1] == old(removedIds);
        }
      }
      preview := WithoutNode(preview, node);
      if CommaFree(removedIds) && removedFiles.Some? {
        SplitJoin(removedIds);
      }
    }
  }

  /** A preview holding only photos counts every node. */
  lemma {:induction false} OnlyPhotos(nodes: seq<Node>)
    requires forall i :: 0 <= i < |nodes| ==> IsPhoto(nodes[i])
    ensures |Photos(nodes)| == |nodes|
  {
    if nodes != [] {
      OnlyPhotos(nodes[..|nodes| - 1]);
    }
  }

  /** A client: with six photos shown the widget refuses a new file; once an
      old photo is removed, the same file is staged. */
  method RemoveThenPick<File>(shown: seq<Node>, f: File)
    requires |shown| == UPLOAD_LIMIT && forall i :: 0 <= i < |shown| ==> IsPhoto(shown[i])
  {
    OnlyPhotos(shown);
    var w := new PhotosUpload<File>(shown, true);
    w.HandleFileInput([f]);
    assert w.files == [];
    w.RemoveOldPhoto("7", 0);
    assert w.preview == shown[1..];
    OnlyPhotos(shown[1..]);
    w.HandleFileInput([f]);
    assert w.files == [f];
  }
}
