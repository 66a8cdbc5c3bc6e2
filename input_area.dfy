/**
 * The message composer: the send guard, sending from the keyboard, and editing the list of
 * attached images.
 */
module InputArea {
  import opened Wrappers
  import opened Seqs
  import opened Strings
  import opened Types
  import App

  /** What the composer holds: the draft text and the attached images. */
  datatype Composer = Composer(text: string, attachments: seq<Attachment>)

  /** The send button is highlighted when there is something to send. */
  predicate HasContent(c: Composer) { Trim(c.text) != "" || |c.attachments| > 0 }

  /** The send button is disabled for an empty draft or while a reply is loading. */
  predicate ButtonDisabled(c: Composer, isLoading: bool) {
    (Trim(c.text) == "" && |c.attachments| == 0) || isLoading
  }

  /**
   * Sending: an empty draft (blank text and no images) or a pending reply refuses; otherwise the
   * draft as typed is handed on and the composer is cleared.
   */
  function HandleSend(c: Composer, isLoading: bool): (r: (Option<(string, seq<Attachment>)>, Composer))
    ensures r.0.Some? <==> HasContent(c) && !isLoading
    ensures r.0.Some? ==> r.0.value == (c.text, c.attachments) && r.1 == Composer("", [])
    ensures r.0.None? ==> r.1 == c
  {
    if (Trim(c.text) == "" && |c.attachments| == 0) || isLoading then (None, c)
    else (Some((c.text, c.attachments)), Composer("", []))
  }

  /** The button's disabled state is exactly the handler's refusal. */
  lemma DisabledIffRefused(c: Composer, isLoading: bool)
    ensures ButtonDisabled(c, isLoading) <==> HandleSend(c, isLoading).0.None?
  {
  }

  /** After a send the composer is empty, so an immediate second send is refused. */
  lemma NoDoubleSend(c: Composer, isLoading: bool)
    requires HandleSend(c, isLoading).0.Some?
    ensures HandleSend(HandleSend(c, isLoading).1, isLoading).0.None?
  {
    assert Trim("") == "";
  }

  /** A key press in the text box: Enter without Shift sends (and suppresses the newline); anything else types. */
  function HandleKeyDown(key: string, shift: bool, c: Composer, isLoading: bool)
      : (r: (bool, Option<(string, seq<Attachment>)>, Composer))
    ensures r.0 <==> key == "Enter" && !shift
    ensures r.0 ==> (r.1, r.2) == HandleSend(c, isLoading)
    ensures !r.0 ==> r.1.None? && r.2 == c
  {
    if key == "Enter" && !shift then
      var sent := HandleSend(c, isLoading);
      (true, sent.0, sent.1)
    else (false, None, c)
  }

  /** Removing the thumbnail at `index`: that one goes, the others keep their order. */
  function RemoveAttachment(atts: seq<Attachment>, index: int): (r: seq<Attachment>)
    ensures 0 <= index < |atts| ==> |r| == |atts| - 1 && r == atts[..index] + atts[index + 1..]
    ensures !(0 <= index < |atts|) ==> r == atts
  {
    var r := RemoveAt(atts, index);
    assert 0 <= index < |atts| ==> r == atts[..index] + atts[index + 1..];
    r
  }

  /** `piece` starts at `from` in `s` and runs to the end of `s` or to a comma. */
  predicate PieceAt(s: string, from: nat, piece: string) {
    && from + |piece| <= |s| && s[from..from + |piece|] == piece
    && (from + |piece| == |s| || s[from + |piece|] == ',')
  }

  /** The payload of a data URL: the piece after the first comma, if there is one (`split(',')[1]`). */
  function Payload(url: string): (r: Option<string>)
    ensures r.Some? ==> ',' !in r.value
    ensures r.None? <==> ',' !in url
    ensures r.Some? ==> exists i :: 0 <= i < |url| && url[i] == ',' && ',' !in url[..i] && PieceAt(url, i + 1, r.value)
  {
    var parts := Split(url, ',');
    if |parts| > 1 then
      JoinSplit(url, ',');
      assert url == parts[0] + [','] + Join(parts[1..], ',');
      assert url[|parts[0]|] == ',';
      assert url[..|parts[0]|] == parts[0];
      SecondPiece(url, parts);
      Some(parts[1])
    else
      JoinSplit(url, ',');
      assert Join(parts, ',') == parts[0];
      None
  }

  /** The second piece of a split starts just after the first comma and runs to the next comma or the end. */
  lemma SecondPiece(url: string, parts: seq<string>)
    requires parts == Split(url, ',') && |parts| > 1
    ensures PieceAt(url, |parts[0]| + 1, parts[1])
  {
    JoinSplit(url, ',');
    var i := |parts[0]|;
    assert url == parts[0] + [','] + Join(parts[1..], ',');
    assert url[i + 1..] == Join(parts[1..], ',');
    if |parts[1..]| > 1 {
      assert Join(parts[1..], ',') == parts[1] + [','] + Join(parts[2..], ',');
    }
  }

  /** A read file: its type and the data URL the reader produced. */
  datatype FileRead = FileRead(mimeType: string, dataUrl: string)

  function ReadAttachment(f: FileRead): Attachment {
    Attachment(f.mimeType, Payload(f.dataUrl).GetOr(""))
  }

  /** New files go after the existing attachments, in the order they were picked. */
  function AppendFiles(atts: seq<Attachment>, files: seq<FileRead>): (r: seq<Attachment>)
    ensures |r| == |atts| + |files|
    ensures r[..|atts|] == atts
    ensures forall k :: 0 <= k < |files| ==> r[|atts| + k] == ReadAttachment(files[k])
  {
    atts + seq(|files|, k requires 0 <= k < |files| => ReadAttachment(files[k]))
  }

  /** Reading back an upload's data URL recovers its base64 data: the payload split inverts the gallery's data URL. */
  lemma PayloadOfDataUrl(mimeType: string, data: string)
    requires ',' !in mimeType && ',' !in data
    ensures Payload(App.DataUrl(mimeType, data)) == Some(data)
    ensures ReadAttachment(FileRead(mimeType, App.DataUrl(mimeType, data))) == Attachment(mimeType, data)
  {
    var head := "data:" + mimeType + ";base64";
    assert ',' !in head;
    assert App.DataUrl(mimeType, data) == Join([head, data], ',');
    SplitJoin([head, data], ',');
  }
}
