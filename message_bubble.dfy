/**
 * One chat message as the conversation shows it: the cited web sources and their truncation,
 * the read-aloud toggle with its choice of voice, and the follow-up suggestion chips.
 */
module MessageBubble {
  import opened Wrappers
  import opened Seqs
  import opened Strings
  import opened Types

  // ------------------------------------------------------------------
  // Sources

  /** The `web` part of each chunk that has one, in chunk order. */
  function WebSources(chunks: seq<GroundingChunk>): (r: seq<WebSource>)
    ensures |r| <= |chunks|
    ensures forall s :: s in r <==> exists k :: 0 <= k < |chunks| && chunks[k].web == Some(s)
    ensures (forall k :: 0 <= k < |chunks| ==> chunks[k].web.Some?) ==>
      |r| == |chunks| && forall k :: 0 <= k < |chunks| ==> r[k] == chunks[k].web.value
    ensures (forall k :: 0 <= k < |chunks| ==> chunks[k].web.None?) ==> r == []
    decreases |chunks|
  {
    if chunks == [] then []
    else
      var rest := WebSources(chunks[1..]);
      assert forall k :: 1 <= k < |chunks| ==> chunks[k] == chunks[1..][k - 1];
      match chunks[0].web
      case Some(s) => [s] + rest
      case None => rest
  }

  /** Sources keep the order of their chunks: the list for a concatenation is the concatenation of the lists. */
  lemma {:induction false} WebSourcesAppend(a: seq<GroundingChunk>, b: seq<GroundingChunk>)
    ensures WebSources(a + b) == WebSources(a) + WebSources(b)
    decreases |a|
  {
    if a == [] {
      assert a + b == b;
    } else {
      assert (a + b)[0] == a[0];
      assert (a + b)[1..] == a[1..] + b;
      WebSourcesAppend(a[1..], b);
    }
  }

  /** All sources of a message; none without grounding metadata. */
  function AllSources(m: Message): (r: seq<WebSource>)
    ensures m.groundingMetadata.None? ==> r == []
    ensures m.groundingMetadata.Some? ==> r == WebSources(m.groundingMetadata.value.groundingChunks)
  {
    match m.groundingMetadata
    case None => []
    case Some(md) => WebSources(md.groundingChunks)
  }

  const CollapsedSources: nat := 3

  /** The sources listed: the first three while collapsed, all once expanded. */
  function DisplayedSources(all: seq<WebSource>, showAll: bool): (r: seq<WebSource>)
    ensures showAll ==> r == all
    ensures !showAll ==> |r| == (if |all| <= CollapsedSources then |all| else CollapsedSources) && r == all[..|r|]
  {
    if showAll then all else Take(all, CollapsedSources)
  }

  predicate HasMore(all: seq<WebSource>) { |all| > CollapsedSources }

  /** The expand button, with the number of hidden sources it announces. */
  function MoreButton(all: seq<WebSource>, showAll: bool): (r: Option<int>)
    ensures r.Some? <==> HasMore(all) && !showAll
    ensures r.Some? ==> r.value > 0 && r.value == |all| - CollapsedSources
  {
    if HasMore(all) && !showAll then Some(|all| - CollapsedSources) else None
  }

  /** Collapsed, the listed sources and the button's count account for every source exactly once. */
  lemma CollapsedAccountsForAll(all: seq<WebSource>)
    ensures |DisplayedSources(all, false)| + MoreButton(all, false).GetOr(0) == |all|
    ensures DisplayedSources(all, false) + all[|DisplayedSources(all, false)|..] == all
  {
  }

  /** The sources panel: shown for model messages with at least one source, with its header count. */
  datatype SourcesPanel = SourcesPanel(count: nat, listed: seq<WebSource>, more: Option<int>)

  function Panel(m: Message, showAll: bool): (r: Option<SourcesPanel>)
    ensures r.Some? <==> m.role == Model && |AllSources(m)| > 0
    ensures r.Some? ==>
      && r.value.count == |AllSources(m)|
      && r.value.listed == DisplayedSources(AllSources(m), showAll)
      && r.value.more == MoreButton(AllSources(m), showAll)
  {
    var all := AllSources(m);
    if m.role.Model? && |all| > 0 then Some(SourcesPanel(|all|, DisplayedSources(all, showAll), MoreButton(all, showAll)))
    else None
  }

  /** Pressing the expand button lists every source and removes the button. */
  lemma ExpandListsAll(m: Message)
    requires Panel(m, false).Some? && Panel(m, false).value.more.Some?
    ensures Panel(m, true) == Some(SourcesPanel(|AllSources(m)|, AllSources(m), None))
  {
  }

  // ------------------------------------------------------------------
  // Reading aloud

  datatype Voice = Voice(name: string, lang: string)

  /** The voice test: an English voice whose name mentions Google US English or David, or whose lowercased name contains `male`. */
  predicate PreferredVoice(v: Voice) {
    (Contains(v.name, "Google US English") || Contains(v.name, "David") || Contains(ToLower(v.name), "male"))
      && StartsWith(v.lang, "en")
  }

  /** The first preferred voice of the list, if any; otherwise the engine's default is used. */
  function ChooseVoice(voices: seq<Voice>): (r: Option<Voice>)
    ensures r.None? <==> forall k :: 0 <= k < |voices| ==> !PreferredVoice(voices[k])
    ensures r.Some? ==>
      exists k :: 0 <= k < |voices| && voices[k] == r.value && PreferredVoice(voices[k])
        && forall j :: 0 <= j < k ==> !PreferredVoice(voices[j])
  {
    match FindIndex(voices, PreferredVoice)
    case Some(k) => Some(voices[k])
    case None => None
  }

  /** The `male` test is a substring test, so any name containing `female` passes it too. */
  lemma FemaleContainsMale(name: string)
    requires Contains(ToLower(name), "female")
    ensures Contains(ToLower(name), "male")
  {
    var lower := ToLower(name);
    var k := IndexOf(lower, "female").value;
    assert lower[k + 2..k + 6] == "female"[2..6];
    ContainsAt(lower, "male", k + 2);
  }

  /** So an English voice named as female is chosen when it comes first. */
  lemma FemaleVoiceChosen(v: Voice, rest: seq<Voice>)
    requires Contains(ToLower(v.name), "female") && StartsWith(v.lang, "en")
    ensures ChooseVoice([v] + rest) == Some(v)
  {
    FemaleContainsMale(v.name);
    assert ([v] + rest)[0] == v;
  }

  /** What the speak button asks of the speech engine. */
  datatype SpeechRequest = Cancel | Speak(text: string, voice: Option<Voice>)

  /**
   * The speak button: while speaking it cancels and clears the flag; otherwise it speaks the message
   * text, with the chosen voice when there is one, and sets the flag.
   */
  function HandleSpeak(isSpeaking: bool, text: string, voices: seq<Voice>): (r: (bool, SpeechRequest))
    ensures r.0 <==> !isSpeaking
    ensures isSpeaking ==> r.1 == Cancel
    ensures !isSpeaking ==>
      r.1.Speak? && r.1.text == text && (r.1.voice.Some? <==> exists k :: 0 <= k < |voices| && PreferredVoice(voices[k]))
  {
    if isSpeaking then (false, Cancel) else (true, Speak(text, ChooseVoice(voices)))
  }

  /** Pressing the button twice starts and then stops the reading, ending where it began. */
  lemma SpeakTwiceStops(text: string, voices: seq<Voice>)
    ensures var first := HandleSpeak(false, text, voices);
      first.0 && HandleSpeak(first.0, text, voices) == (false, Cancel)
  {
  }

  // ------------------------------------------------------------------
  // Suggestions

  /** The suggestion chips shown under a message: only for a finished model message with suggestions. */
  function ShownSuggestions(m: Message, isStreaming: bool): (r: seq<string>)
    ensures r != [] <==> m.role == Model && !isStreaming && m.suggestions.Some? && |m.suggestions.value| > 0
    ensures r != [] ==> r == m.suggestions.value
  {
    if m.role.Model? && !isStreaming && m.suggestions.Some? && |m.suggestions.value| > 0 then m.suggestions.value
    else []
  }

  /** A user message never shows suggestions or sources, whatever it carries. */
  lemma UserMessageIsPlain(m: Message, isStreaming: bool, showAll: bool)
    requires m.role == User
    ensures ShownSuggestions(m, isStreaming) == [] && Panel(m, showAll).None?
  {
  }
}
