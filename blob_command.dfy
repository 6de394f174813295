/**
 * The rich editor's command that drops files into a document as blob nodes.
 * For every file a placeholder node is inserted and an upload is started;
 * progress and the upload's outcome later rewrite the placeholder's
 * attributes, or remove the placeholder when the upload fails.
 *
 * The editor document is a flat sequence of leaf nodes in traversal order,
 * each occupying one position, so a node's position is its index.
 * Transactions are local copies of the document; dispatching one assigns it.
 */
module BlobCommand {
  import opened Wrappers

  /** A node attribute value: the blob attributes are strings or numbers. */
  datatype Value = Str(s: string) | Num(n: int)

  type Attrs = map<string, Value>

  /** A document node: its node type name and its attribute map. */
  datatype Node = Node(kind: string, attrs: Attrs)

  /** The fields of a dropped file that the command reads. */
  datatype File = File(name: string, mimeType: string, size: nat)

  /** A node found by id together with its position (`{node, pos}`). */
  datatype Found = Found(node: Node, pos: nat)

  /** One call of the upload function: the placeholder id it reports to, and the file. */
  datatype Upload = Upload(tempId: string, file: File)

  /** How an upload settles: resolved with the stored blob's id and URL, or rejected. */
  datatype UploadOutcome = Uploaded(id: string, url: string) | UploadFailed

  /** `node.attrs.id === id` */
  predicate HasId(n: Node, id: string) {
    "id" in n.attrs && n.attrs["id"] == Str(id)
  }

  /** The blob node `createNode` builds before the upload starts. */
  function Placeholder(tempId: string, file: File, previewUrl: string): (n: Node)
    ensures n.kind == "blob" && HasId(n, tempId)
  {
    Node("blob", map[
      "id" := Str(tempId),
      "src" := Str(previewUrl),
      "title" := Str(file.name),
      "alt" := Str(file.name),
      "status" := Str("uploading"),
      "filetype" := Str(file.mimeType),
      "filesize" := Num(file.size)])
  }

  /**
   * The placeholder is a blob node carrying its temporary id, the preview
   * URL as source, the file's name as title and alt text, its type and size,
   * and the "uploading" status. The schema's defaults for attributes the
   * command does not pass are not modelled, so the node has no others.
   */
  lemma PlaceholderAttrs(tempId: string, file: File, previewUrl: string)
    ensures var n := Placeholder(tempId, file, previewUrl);
            && n.kind == "blob" && HasId(n, tempId)
            && n.attrs.Keys == {"id", "src", "title", "alt", "status", "filetype", "filesize"}
            && n.attrs["status"] == Str("uploading") && n.attrs["src"] == Str(previewUrl)
            && n.attrs["title"] == n.attrs["alt"] == Str(file.name)
            && n.attrs["filetype"] == Str(file.mimeType) && n.attrs["filesize"] == Num(file.size)
  {
  }

  /** The attributes a successful upload writes onto its placeholder. */
  function UploadedAttrs(id: string, url: string): (a: Attrs)
    ensures a.Keys == {"id", "src", "status"}
    ensures a["id"] == Str(id) && a["src"] == Str(url) && a["status"] == Str("uploaded")
  {
    map["id" := Str(id), "src" := Str(url), "status" := Str("uploaded")]
  }

  /** The document after inserting `n` at position `pos`: exactly one node more, all others kept in order. */
  function Inserted(doc: seq<Node>, pos: nat, n: Node): (r: seq<Node>)
    requires pos <= |doc|
    ensures |r| == |doc| + 1 && r[pos] == n
    ensures forall j :: 0 <= j < pos ==> r[j] == doc[j]
    ensures forall j :: pos < j < |r| ==> r[j] == doc[j - 1]
  {
    doc[..pos] + [n] + doc[pos..]
  }

  /** Position of the first node, in traversal order, whose id is `id`. */
  function FirstIndexOf(doc: seq<Node>, id: string): (r: Option<nat>)
    ensures r.None? <==> forall j :: 0 <= j < |doc| ==> !HasId(doc[j], id)
    ensures r.Some? ==> r.value < |doc| && HasId(doc[r.value], id)
    ensures r.Some? ==> forall j :: 0 <= j < r.value ==> !HasId(doc[j], id)
  {
    if |doc| == 0 then None
    else if HasId(doc[0], id) then Some(0)
    else
      match FirstIndexOf(doc[1..], id)
      case None => None
      case Some(i) => Some(i + 1)
  }

  /** Position of the last node, in traversal order, whose id is `id`. */
  function LastIndexOf(doc: seq<Node>, id: string): (r: Option<nat>)
    ensures r.None? <==> forall j :: 0 <= j < |doc| ==> !HasId(doc[j], id)
    ensures r.Some? ==> r.value < |doc| && HasId(doc[r.value], id)
    ensures r.Some? ==> forall j :: r.value < j < |doc| ==> !HasId(doc[j], id)
  {
    if |doc| == 0 then None
    else if HasId(doc[|doc| - 1], id) then Some(|doc| - 1)
    else LastIndexOf(doc[..|doc| - 1], id)
  }

  /** The `{node, pos}` record for a position, or `{null, null}`. */
  function Locate(doc: seq<Node>, i: Option<nat>): Option<Found>
    requires i.Some? ==> i.value < |doc|
  {
    match i
    case None => None
    case Some(k) => Some(Found(doc[k], k))
  }

  /**
   * `findNode` as intended by its "stop searching" comment: the first node
   * in traversal order with the given id, with its position.
   */
  method FindNode(id: string, doc: seq<Node>) returns (result: Option<Found>)
    ensures result == Locate(doc, FirstIndexOf(doc, id))
  {
    var pos := 0;
    while pos < |doc|
      invariant 0 <= pos <= |doc|
      invariant forall j :: 0 <= j < pos ==> !HasId(doc[j], id)
    {
      if HasId(doc[pos], id) {
        return Some(Found(doc[pos], pos));
      }
      pos := pos + 1;
    }
    return None;
  }

  /**
   * `findNode` as written: the traversal callback's `return false` only
   * keeps the traversal out of the matching node's children, so the walk
   * goes on over the following nodes and a later match overwrites
   * `result`. The last match wins.
   */
  method FindNodeAsWritten(id: string, doc: seq<Node>) returns (result: Option<Found>)
    ensures result == Locate(doc, LastIndexOf(doc, id))
  {
    result := None;
    var pos := 0;
    while pos < |doc|
      invariant 0 <= pos <= |doc|
      invariant result == Locate(doc, LastIndexOf(doc[..pos], id))
    {
      assert doc[..pos + 1][..pos] == doc[..pos];
      if HasId(doc[pos], id) {
        result := Some(Found(doc[pos], pos));
      }
      pos := pos + 1;
    }
    assert doc[..pos] == doc;
  }

  /** The two readings of `findNode` disagree exactly when two nodes carry the id. */
  lemma FirstAndLastDisagreeIffRepeated(doc: seq<Node>, id: string)
    ensures FirstIndexOf(doc, id) != LastIndexOf(doc, id) <==>
            exists i, j :: 0 <= i < j < |doc| && HasId(doc[i], id) && HasId(doc[j], id)
  {
    var first, last := FirstIndexOf(doc, id), LastIndexOf(doc, id);
    if first != last {
      assert first.Some? && last.Some?;
      assert first.value < last.value;
      assert HasId(doc[first.value], id) && HasId(doc[last.value], id);
    }
  }

  /** A document with two placeholders sharing an id: the code as written finds the later one. */
  lemma FindNodeAsWrittenPicksLastMatch()
    ensures var p := Placeholder("t", File("a.png", "image/png", 1), "blob:a");
            var q := Placeholder("t", File("b.png", "image/png", 2), "blob:b");
            var doc := [Node("paragraph", map[]), p, q];
            LastIndexOf(doc, "t") == Some(2) && FirstIndexOf(doc, "t") == Some(1)
  {
    var p := Placeholder("t", File("a.png", "image/png", 1), "blob:a");
    var q := Placeholder("t", File("b.png", "image/png", 2), "blob:b");
    var doc := [Node("paragraph", map[]), p, q];
    assert !HasId(doc[0], "t") && HasId(doc[1], "t") && HasId(doc[2], "t");
  }

  /** The entries of `updates` whose keys are in `keys`. */
  ghost function Restricted(updates: Attrs, keys: set<string>): Attrs {
    map k | k in updates.Keys && k in keys :: updates[k]
  }

  /**
   * The document after `updateNodeAttrs`: the given keys are set on the
   * first node with the id; nothing happens when there is none or when it
   * sits at position 0 (`!n.pos` rejects 0).
   */
  function AttrsUpdated(doc: seq<Node>, id: string, updates: Attrs): (r: seq<Node>)
    ensures |r| == |doc|
    ensures forall j :: 0 <= j < |doc| && FirstIndexOf(doc, id) != Some(j) ==> r[j] == doc[j]
    ensures forall j :: 0 < j < |doc| && FirstIndexOf(doc, id) == Some(j) ==>
              r[j] == Node(doc[j].kind, doc[j].attrs + updates)
    ensures FirstIndexOf(doc, id) == Some(0) ==> r == doc
  {
    match FirstIndexOf(doc, id)
    case None => doc
    case Some(i) =>
      if i == 0 then doc
      else doc[i := Node(doc[i].kind, doc[i].attrs + updates)]
  }

  /**
   * The document after `deleteNode`: the range [pos, pos + 1) of the first
   * node with the id is removed; nothing happens when there is none or when
   * it sits at position 0.
   */
  function Deleted(doc: seq<Node>, id: string): (r: seq<Node>)
    ensures var found := FirstIndexOf(doc, id);
            if found.Some? && found.value > 0 then
              && |r| == |doc| - 1
              && (forall j :: 0 <= j < found.value ==> r[j] == doc[j])
              && (forall j :: found.value <= j < |r| ==> r[j] == doc[j + 1])
            else r == doc
  {
    match FirstIndexOf(doc, id)
    case None => doc
    case Some(i) => if i == 0 then doc else doc[..i] + doc[i + 1..]
  }

  /** Nodes inserted one after another at the same position: the newest comes first. */
  function StackedPlaceholders(files: seq<File>, tempIds: seq<string>, previewUrls: seq<string>, n: nat): seq<Node>
    requires n <= |files| == |tempIds| == |previewUrls|
  {
    if n == 0 then []
    else [Placeholder(tempIds[n - 1], files[n - 1], previewUrls[n - 1])]
         + StackedPlaceholders(files, tempIds, previewUrls, n - 1)
  }

  /** The uploads started for the first `n` files, in file order. */
  function StartedUploads(files: seq<File>, tempIds: seq<string>, n: nat): seq<Upload>
    requires n <= |files| == |tempIds|
  {
    if n == 0 then [] else StartedUploads(files, tempIds, n - 1) + [Upload(tempIds[n - 1], files[n - 1])]
  }

  /** Each of `n` stacked placeholders is where the reversed file order puts it. */
  lemma {:induction false} StackedPlaceholderAt(files: seq<File>, tempIds: seq<string>, previewUrls: seq<string>, n: nat, k: nat)
    requires n <= |files| == |tempIds| == |previewUrls|
    requires k < n
    ensures |StackedPlaceholders(files, tempIds, previewUrls, n)| == n
    ensures StackedPlaceholders(files, tempIds, previewUrls, n)[n - 1 - k]
            == Placeholder(tempIds[k], files[k], previewUrls[k])
  {
    var head := Placeholder(tempIds[n - 1], files[n - 1], previewUrls[n - 1]);
    var tail := StackedPlaceholders(files, tempIds, previewUrls, n - 1);
    assert StackedPlaceholders(files, tempIds, previewUrls, n) == [head] + tail;
    StackedLength(files, tempIds, previewUrls, n - 1);
    if k < n - 1 {
      StackedPlaceholderAt(files, tempIds, previewUrls, n - 1, k);
      assert ([head] + tail)[n - 1 - k] == tail[n - 2 - k];
    }
  }

  lemma {:induction false} StackedLength(files: seq<File>, tempIds: seq<string>, previewUrls: seq<string>, n: nat)
    requires n <= |files| == |tempIds| == |previewUrls|
    ensures |StackedPlaceholders(files, tempIds, previewUrls, n)| == n
  {
    if n > 0 {
      StackedLength(files, tempIds, previewUrls, n - 1);
    }
  }

  /** One upload per file, in file order, each reporting to its own placeholder id. */
  lemma {:induction false} StartedUploadAt(files: seq<File>, tempIds: seq<string>, n: nat, k: nat)
    requires n <= |files| == |tempIds|
    requires k < n
    ensures |StartedUploads(files, tempIds, n)| == n
    ensures StartedUploads(files, tempIds, n)[k] == Upload(tempIds[k], files[k])
  {
    if k < n - 1 {
      StartedUploadAt(files, tempIds, n - 1, k);
    } else if n > 1 {
      StartedUploadAt(files, tempIds, n - 1, 0);
    }
  }

  /** A placeholder inserted where no earlier node has its id is found at its insertion point. */
  lemma PlaceholderFoundWhereInserted(doc: seq<Node>, pos: nat, tempId: string, file: File, previewUrl: string)
    requires pos <= |doc|
    requires forall j :: 0 <= j < pos ==> !HasId(doc[j], tempId)
    ensures FirstIndexOf(Inserted(doc, pos, Placeholder(tempId, file, previewUrl)), tempId) == Some(pos)
  {
    var r := Inserted(doc, pos, Placeholder(tempId, file, previewUrl));
    assert HasId(r[pos], tempId);
  }

  /** A failed upload removes its placeholder and gives back the document it was inserted into. */
  lemma FailedUploadRestoresDocument(doc: seq<Node>, pos: nat, tempId: string, file: File, previewUrl: string)
    requires 0 < pos <= |doc|
    requires forall j :: 0 <= j < pos ==> !HasId(doc[j], tempId)
    ensures Deleted(Inserted(doc, pos, Placeholder(tempId, file, previewUrl)), tempId) == doc
  {
    var r := Inserted(doc, pos, Placeholder(tempId, file, previewUrl));
    PlaceholderFoundWhereInserted(doc, pos, tempId, file, previewUrl);
    var d := Deleted(r, tempId);
    assert |d| == |doc|;
    forall j | 0 <= j < |doc| ensures d[j] == doc[j] {
      if j >= pos { assert d[j] == r[j + 1]; }
    }
  }

  /**
   * A successful upload turns its placeholder into the uploaded blob: id and
   * src from the upload, status "uploaded", the other attributes kept.
   */
  lemma SuccessfulUploadCompletesPlaceholder(doc: seq<Node>, pos: nat, tempId: string, file: File, previewUrl: string, id: string, url: string)
    requires 0 < pos <= |doc|
    requires forall j :: 0 <= j < pos ==> !HasId(doc[j], tempId)
    ensures var placeholder := Placeholder(tempId, file, previewUrl);
            var r := AttrsUpdated(Inserted(doc, pos, placeholder), tempId, UploadedAttrs(id, url));
            && r == Inserted(doc, pos, Node("blob", placeholder.attrs + UploadedAttrs(id, url)))
            && HasId(r[pos], id) && r[pos].attrs["src"] == Str(url) && r[pos].attrs["status"] == Str("uploaded")
            && r[pos].attrs["title"] == Str(file.name) && r[pos].attrs["filesize"] == Num(file.size)
  {
    var placeholder := Placeholder(tempId, file, previewUrl);
    PlaceholderFoundWhereInserted(doc, pos, tempId, file, previewUrl);
    var r := AttrsUpdated(Inserted(doc, pos, placeholder), tempId, UploadedAttrs(id, url));
    var completed := Node("blob", placeholder.attrs + UploadedAttrs(id, url));
    var expected := Inserted(doc, pos, completed);
    assert |r| == |expected|;
    forall j | 0 <= j < |r| ensures r[j] == expected[j] {
    }
    CompletedPlaceholderAttrs(tempId, file, previewUrl, id, url);
  }

  /** The completed placeholder: the upload's id, URL and status over the file's own attributes. */
  lemma CompletedPlaceholderAttrs(tempId: string, file: File, previewUrl: string, id: string, url: string)
    ensures var n := Node("blob", Placeholder(tempId, file, previewUrl).attrs + UploadedAttrs(id, url));
            && HasId(n, id) && n.attrs["src"] == Str(url) && n.attrs["status"] == Str("uploaded")
            && n.attrs["title"] == Str(file.name) && n.attrs["filesize"] == Num(file.size)
  {
  }

  /** Progress updates leave the placeholder findable by its temporary id, at the same position. */
  lemma ProgressKeepsPlaceholderFindable(doc: seq<Node>, tempId: string, progress: int)
    ensures FirstIndexOf(AttrsUpdated(doc, tempId, map["progress" := Num(progress)]), tempId)
            == FirstIndexOf(doc, tempId)
  {
    var r := AttrsUpdated(doc, tempId, map["progress" := Num(progress)]);
    var found := FirstIndexOf(doc, tempId);
    forall j | 0 <= j < |doc| ensures HasId(r[j], tempId) <==> HasId(doc[j], tempId) {
      if found == Some(j) && j > 0 {
        assert r[j].attrs == doc[j].attrs + map["progress" := Num(progress)];
      }
    }
    var after := FirstIndexOf(r, tempId);
    if found.Some? {
      assert HasId(r[found.value], tempId);
    }
    if after.Some? {
      assert HasId(doc[after.value], tempId);
    }
  }

  /** A placeholder inserted at position 0 is never rewritten nor removed: it stays "uploading". */
  lemma PlaceholderAtStartIsNeverSettled(doc: seq<Node>, tempId: string, file: File, previewUrl: string, updates: Attrs)
    ensures var r := Inserted(doc, 0, Placeholder(tempId, file, previewUrl));
            AttrsUpdated(r, tempId, updates) == r && Deleted(r, tempId) == r
  {
    var r := Inserted(doc, 0, Placeholder(tempId, file, previewUrl));
    assert HasId(r[0], tempId);
  }

  /** Inserting right after a prefix puts the node in front of what follows it. */
  lemma InsertAfterPrefix(prefix: seq<Node>, middle: seq<Node>, suffix: seq<Node>, n: Node)
    ensures Inserted(prefix + middle + suffix, |prefix|, n) == prefix + ([n] + middle) + suffix
  {
    var doc := prefix + middle + suffix;
    assert doc[..|prefix|] == prefix;
    assert doc[|prefix|..] == middle + suffix;
  }

  /** Inserting the next file's placeholder right after the prefix extends the stack by one. */
  lemma StackStep(prefix: seq<Node>, suffix: seq<Node>, files: seq<File>, tempIds: seq<string>, previewUrls: seq<string>, i: nat)
    requires i < |files| == |tempIds| == |previewUrls|
    ensures var doc := prefix + StackedPlaceholders(files, tempIds, previewUrls, i) + suffix;
            |prefix| <= |doc| &&
            Inserted(doc, |prefix|, Placeholder(tempIds[i], files[i], previewUrls[i]))
            == prefix + StackedPlaceholders(files, tempIds, previewUrls, i + 1) + suffix
  {
    var stacked := StackedPlaceholders(files, tempIds, previewUrls, i);
    var placeholder := Placeholder(tempIds[i], files[i], previewUrls[i]);
    InsertAfterPrefix(prefix, stacked, suffix, placeholder);
    assert StackedPlaceholders(files, tempIds, previewUrls, i + 1) == [placeholder] + stacked;
  }

  /** The editor view: whether it accepts edits, its document, and the uploads it started. */
  class Editor {
    var editable: bool
    var doc: seq<Node>
    var uploads: seq<Upload>

    constructor (editable: bool, doc: seq<Node>)
      ensures this.editable == editable && this.doc == doc && uploads == []
    {
      this.editable := editable;
      this.doc := doc;
      uploads := [];
    }

    /**
     * `createNode`: insert the placeholder at `pos`. A position outside the
     * document makes the transaction throw, and the document stays as it was.
     */
    method CreateNode(tempId: string, file: File, previewUrl: string, pos: int) returns (inserted: bool)
      modifies this`doc
      ensures inserted == (0 <= pos <= |old(doc)|)
      ensures doc == if inserted then Inserted(old(doc), pos, Placeholder(tempId, file, previewUrl)) else old(doc)
    {
      if 0 <= pos <= |doc| {
        var tr := doc[..pos] + [Placeholder(tempId, file, previewUrl)] + doc[pos..];
        doc := tr;
        inserted := true;
      } else {
        inserted := false;
      }
    }

    /** `handleUpload`: the placeholder first, then the upload; a failed insertion ends it. */
    method HandleUpload(file: File, tempId: string, previewUrl: string, pos: int)
      modifies this`doc, this`uploads
      ensures 0 <= pos <= |old(doc)| ==>
                doc == Inserted(old(doc), pos, Placeholder(tempId, file, previewUrl))
                && uploads == old(uploads) + [Upload(tempId, file)]
      ensures !(0 <= pos <= |old(doc)|) ==> doc == old(doc) && uploads == old(uploads)
    {
      var inserted := CreateNode(tempId, file, previewUrl, pos);
      if inserted {
        uploads := uploads + [Upload(tempId, file)];
      }
    }

    /**
     * The command itself. `tempIds` and `previewUrls` stand for what
     * `generateUniqueId` and `URL.createObjectURL` return for each file.
     */
    method AddBlobsEditorCommand(files: seq<File>, tempIds: seq<string>, previewUrls: seq<string>, pos: int)
      returns (handled: bool)
      requires |tempIds| == |files| && |previewUrls| == |files|
      modifies this`doc, this`uploads
      ensures handled == editable
      ensures !handled || !(0 <= pos <= |old(doc)|) ==> doc == old(doc) && uploads == old(uploads)
      ensures handled && 0 <= pos <= |old(doc)| ==>
                && doc == old(doc)[..pos] + StackedPlaceholders(files, tempIds, previewUrls, |files|) + old(doc)[pos..]
                && uploads == old(uploads) + StartedUploads(files, tempIds, |files|)
    {
      if !editable {
        return false;
      }
      ghost var inRange := 0 <= pos <= |doc|;
      ghost var prefix := if inRange then doc[..pos] else [];
      ghost var suffix := if inRange then doc[pos..] else doc;
      assert inRange ==> doc == prefix + StackedPlaceholders(files, tempIds, previewUrls, 0) + suffix;
      var i := 0;
      while i < |files|
        invariant 0 <= i <= |files|
        invariant inRange ==> && doc == prefix + StackedPlaceholders(files, tempIds, previewUrls, i) + suffix
                              && uploads == old(uploads) + StartedUploads(files, tempIds, i)
        invariant !inRange ==> doc == old(doc) && uploads == old(uploads)
        invariant inRange ==> |prefix| == pos
      {
        if inRange {
          StackStep(prefix, suffix, files, tempIds, previewUrls, i);
        }
        ghost var next := if inRange then prefix + StackedPlaceholders(files, tempIds, previewUrls, i + 1) + suffix else doc;
        HandleUpload(files[i], tempIds[i], previewUrls[i], pos);
        assert doc == next;
        assert StartedUploads(files, tempIds, i + 1) == StartedUploads(files, tempIds, i) + [Upload(tempIds[i], files[i])];
        i := i + 1;
      }
      return true;
    }

    /** `updateNodeAttrs`: one attribute step per key, dispatched as one transaction. */
    method UpdateNodeAttrs(id: string, updates: Attrs)
      modifies this`doc
      ensures doc == AttrsUpdated(old(doc), id, updates)
    {
      var n := FindNode(id, doc);
      if n.None? {
        return;
      }
      if n.value.pos == 0 {
        return;
      }
      var pos := n.value.pos;
      var node := doc[pos];
      var tr := doc;
      var keys := updates.Keys;
      ghost var done: set<string> := {};
      assert Restricted(updates, done) == map[];
      assert node.attrs + Restricted(updates, done) == node.attrs;
      while keys != {}
        invariant keys <= updates.Keys && done == updates.Keys - keys
        invariant tr == doc[pos := Node(node.kind, node.attrs + Restricted(updates, done))]
        decreases keys
      {
        var key :| key in keys;
        tr := tr[pos := Node(tr[pos].kind, tr[pos].attrs[key := updates[key]])];
        assert (node.attrs + Restricted(updates, done))[key := updates[key]]
               == node.attrs + Restricted(updates, done + {key});
        keys := keys - {key};
        done := done + {key};
      }
      assert Restricted(updates, done) == updates;
      doc := tr;
    }

    /** `deleteNode`: remove the range [pos, pos + 1) of the node with the id. */
    method DeleteNode(id: string)
      modifies this`doc
      ensures doc == Deleted(old(doc), id)
    {
      var n := FindNode(id, doc);
      if n.None? {
        return;
      }
      if n.value.pos == 0 {
        return;
      }
      var pos := n.value.pos;
      var tr := doc[..pos] + doc[pos + 1..];
      doc := tr;
    }

    /** The upload's progress callback. */
    method OnProgress(tempId: string, progress: int)
      modifies this`doc
      ensures doc == AttrsUpdated(old(doc), tempId, map["progress" := Num(progress)])
    {
      UpdateNodeAttrs(tempId, map["progress" := Num(progress)]);
    }

    /** The upload promise settling: rewrite the placeholder on success, delete it on failure. */
    method Settle(tempId: string, outcome: UploadOutcome)
      modifies this`doc
      ensures outcome.Uploaded? ==> doc == AttrsUpdated(old(doc), tempId, UploadedAttrs(outcome.id, outcome.url))
      ensures outcome.UploadFailed? ==> doc == Deleted(old(doc), tempId)
    {
      match outcome
      case Uploaded(id, url) =>
        UpdateNodeAttrs(tempId, map["id" := Str(id), "src" := Str(url), "status" := Str("uploaded")]);
      case UploadFailed =>
        DeleteNode(tempId);
    }
  }
}
