/**
  A chat message as the conversation view shows it: an agent message picks
  one of four contents in priority order, and a user message shows a chip per
  bucket of its attached tasks above its text.
*/
module MessageItem {
  import opened Wrappers
  import opened Tasks
  import opened LusidFilter
  import opened TaskChips

  // The agent message

  datatype ResponseAudio = ResponseAudio(transcript: Option<string>, content: Option<string>)

  datatype AgentMessage = AgentMessage(streamingError: bool, content: Option<string>, responseAudio: Option<ResponseAudio>)

  /** What the agent message shows. */
  datatype AgentContent =
    | StreamingErrorNotice(text: string)
    | Markdown(text: string)
    | Transcript(text: string, withAudio: bool)
    | ThinkingLoader

  const StreamingErrorLead := "Oops! Something went wrong while streaming. "
  const StreamingErrorFallback := "Please try refreshing the page or try again later."

  /** JavaScript truthiness of an optional text. */
  predicate Filled(s: Option<string>) {
    s.Some? && s.value != ""
  }

  /** `AgentMessage`, with the store's streaming error message (empty when there is none). */
  function AgentContentOf(m: AgentMessage, streamingErrorMessage: string): AgentContent {
    if m.streamingError then
      StreamingErrorNotice(StreamingErrorLead + if streamingErrorMessage != "" then streamingErrorMessage else StreamingErrorFallback)
    else if Filled(m.content) then Markdown(m.content.value)
    else if m.responseAudio.Some? then
      if !Filled(m.responseAudio.value.transcript) then ThinkingLoader
      else Transcript(m.responseAudio.value.transcript.value, Filled(m.responseAudio.value.content))
    else ThinkingLoader
  }

  /**
    A streaming error wins over everything; otherwise non-empty content is
    shown; otherwise a spoken response's transcript; and the thinking loader
    shows exactly when none of these is there.
  */
  lemma AgentContentPriority(m: AgentMessage, err: string)
    ensures m.streamingError <==> AgentContentOf(m, err).StreamingErrorNotice?
    ensures AgentContentOf(m, err).Markdown? <==> !m.streamingError && Filled(m.content)
    ensures AgentContentOf(m, err).Markdown? ==> AgentContentOf(m, err).text == m.content.value
    ensures AgentContentOf(m, err).Transcript? <==>
              !m.streamingError && !Filled(m.content) && m.responseAudio.Some? && Filled(m.responseAudio.value.transcript)
    ensures AgentContentOf(m, err).ThinkingLoader? <==>
              !m.streamingError && !Filled(m.content) && (m.responseAudio.None? || !Filled(m.responseAudio.value.transcript))
  {
  }

  /** The error notice carries the store's message when there is one, and the fallback advice otherwise. */
  lemma StreamingErrorText(m: AgentMessage, err: string)
    requires m.streamingError
    ensures var t := AgentContentOf(m, err).text;
            && t[..|StreamingErrorLead|] == StreamingErrorLead
            && t[|StreamingErrorLead|..] == (if err == "" then StreamingErrorFallback else err)
  {
  }

  // The user message's task chips

  /** `t.ultimateParentTask?.id ?? t.id`: unlike the selection chips, an empty parent id stays the key. */
  function MessageKey(t: Task): string {
    if t.ultimateParent.Some? then t.ultimateParent.value else t.id
  }

  /** The two bucketings differ exactly on tasks whose parent id is the empty text. */
  lemma KeysDiffer(t: Task)
    ensures MessageKey(t) != ChipKey(t) <==> t.ultimateParent == Some("") && t.id != ""
    ensures t.ultimateParent == Some("") ==> MessageKey(t) == "" && ChipKey(t) == t.id
  {
  }

  /** A chip above the message: a group with its representative's name and its size, or one task's label. */
  datatype AttachedChip = GroupLabel(name: string, taskCount: nat) | SingleLabel(parts: ChipLabel)

  function AttachedChipOf(b: Bucket): AttachedChip
    requires b.tasks != []
  {
    var parent := Representative(b);
    if |b.tasks| > 1 then GroupLabel(parent.displayName, |b.tasks|) else SingleLabel(LabelOf(parent))
  }

  /** The chips of a user message: none unless tasks are attached. */
  function AttachedChips(attached: seq<Task>): Option<seq<AttachedChip>> {
    if attached == [] then None
    else
      var bs := Bucketed(attached, MessageKey);
      BucketedSpec(attached, MessageKey);
      Some(seq(|bs|, i requires 0 <= i < |bs| => AttachedChipOf(bs[i])))
  }

  /**
    Chips appear exactly when tasks are attached, one per bucket of
    `MessageKey`; a chip is a group exactly when its bucket has more than one
    task and then shows the representative's name and the bucket's size; a
    single chip is that task's label, falling back to its display name.
  */
  lemma AttachedChipsSpec(attached: seq<Task>, i: nat)
    ensures AttachedChips(attached).None? <==> attached == []
    ensures attached != [] && i < |Bucketed(attached, MessageKey)| ==>
              var chips := AttachedChips(attached).value; var b := Bucketed(attached, MessageKey)[i];
              && |chips| == |Bucketed(attached, MessageKey)|
              && b.tasks == Keep(attached, KeyTest(MessageKey, b.key))
              && (chips[i].GroupLabel? <==> |b.tasks| > 1)
              && (chips[i].GroupLabel? ==> chips[i].name == Representative(b).displayName && chips[i].taskCount == |b.tasks|)
              && (chips[i].SingleLabel? ==> b.tasks == [b.tasks[0]] && chips[i].parts == LabelOf(b.tasks[0]))
  {
    if attached != [] && i < |Bucketed(attached, MessageKey)| {
      BucketedSpec(attached, MessageKey);
      var b := Bucketed(attached, MessageKey)[i];
      if |b.tasks| == 1 {
        assert b.tasks == [b.tasks[0]];
        RepresentativeSpec(b);
      }
    }
  }
}
