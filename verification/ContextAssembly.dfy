/** Token-budget context assembly (src-tauri/src/context_manager.rs): a static core that is never
    cut, working blocks, working messages and long-term blocks, each under its own quota. */
module ContextAssembly {
  import opened Basics
  import opened TokenText
  import opened TokenAllocation

  // ---------------------------------------------------------------------------------------
  // Data
  // ---------------------------------------------------------------------------------------

  datatype Block = Block(tag: string, content: string)

  /** `ChatAttachment`; the approved-file receipt is opaque here. */
  datatype Attachment = Attachment(
    name: string, mimeType: string, byteCount: nat, dataBase64: Option<string>, text: Option<string>,
    approvedFileReceipt: Option<string>)

  datatype Message = Message(role: string, content: string, attachments: seq<Attachment>)

  datatype Request = Request(
    core: seq<Block>, working: seq<Block>, messages: seq<Message>, longTerm: seq<Block>,
    budget: Option<nat>, turnLimit: nat)

  datatype BlockSelection = BlockSelection(content: string, tokens: nat, count: nat)

  datatype WorkingSelection = WorkingSelection(
    messages: seq<Message>, tokens: nat, count: nat, condensed: bool, attachmentsPreserved: bool)

  datatype Assembly = Assembly(
    systemPrompt: string, messages: seq<Message>, estimatedTokens: nat, coreTokens: nat,
    workingContextTokens: nat, workingTokens: nat, longTermTokens: nat,
    droppedWorkingBlocks: nat, droppedMessages: nat, droppedLongTermBlocks: nat,
    condensed: bool, attachmentsPreserved: bool)

  const TIER2_WEIGHT := 40
  const TIER3_WEIGHT := 15
  const WEIGHT_TOTAL := 100

  // ---------------------------------------------------------------------------------------
  // Blocks
  // ---------------------------------------------------------------------------------------

  function Formatted(b: Block): string {
    var tag, content := Trim(b.tag), Trim(b.content);
    if tag == "" then content else tag + "\n" + content
  }

  function Join(parts: seq<string>): string {
    if parts == [] then ""
    else if |parts| == 1 then parts[0]
    else parts[0] + "\n\n" + Join(parts[1..])
  }

  function TextTokens(parts: seq<string>): nat {
    if parts == [] then 0 else TextTokens(parts[..|parts| - 1]) + EstimateTokens(parts[|parts| - 1])
  }

  /** The texts selected from `blocks[i..]` when `used` tokens are already taken: whole blocks
      while they fit, then at most one truncated block. */
  function SelectFrom(blocks: seq<Block>, quota: nat, enforce: bool, i: nat, used: nat): seq<string>
    requires i <= |blocks|
    decreases |blocks| - i
  {
    if i == |blocks| then []
    else
      var text := Formatted(blocks[i]);
      if !enforce || used + EstimateTokens(text) <= quota then
        [text] + SelectFrom(blocks, quota, enforce, i + 1, used + EstimateTokens(text))
      else
        var cut := Truncated(text, Monus(quota, used));
        if Trim(cut) != "" then [cut] else []
  }

  function SelectedBlocks(blocks: seq<Block>, quota: nat, enforce: bool): BlockSelection {
    var parts := SelectFrom(blocks, quota, enforce, 0, 0);
    BlockSelection(Join(parts), TextTokens(parts), |parts|)
  }

  lemma {:induction false} TextTokensConcat(a: seq<string>, b: seq<string>)
    ensures TextTokens(a + b) == TextTokens(a) + TextTokens(b)
  {
    if b == [] {
      assert a + b == a;
    } else {
      assert (a + b)[..|a + b| - 1] == a + b[..|b| - 1];
      TextTokensConcat(a, b[..|b| - 1]);
    }
  }

  lemma NoTextTokens()
    ensures TextTokens([]) == 0
  {
  }

  lemma TextTokensOne(text: string)
    ensures TextTokens([text]) == EstimateTokens(text)
  {
    hide EstimateTokens;
    assert [text][..0] == [];
    assert TextTokens([text][..0]) == 0;
  }

  /** An enforced quota is respected by the selected texts, the truncated one included. */
  lemma {:induction false} BlocksWithinQuota(blocks: seq<Block>, quota: nat, i: nat, used: nat)
    requires i <= |blocks| && used <= quota
    ensures used + TextTokens(SelectFrom(blocks, quota, true, i, used)) <= quota
    decreases |blocks| - i
  {
    hide EstimateTokens, Truncated, Formatted, Trim;
    if i < |blocks| {
      var text := Formatted(blocks[i]);
      if used + EstimateTokens(text) <= quota {
        var rest := SelectFrom(blocks, quota, true, i + 1, used + EstimateTokens(text));
        BlocksWithinQuota(blocks, quota, i + 1, used + EstimateTokens(text));
        TextTokensConcat([text], rest);
        TextTokensOne(text);
      } else {
        var cut := Truncated(text, Monus(quota, used));
        TruncationSound(text, Monus(quota, used));
        TextTokensOne(cut);
      }
    }
  }

  /** The selected texts are the formatted blocks, in order, all whole except perhaps the last. */
  lemma {:induction false} BlocksInOrder(blocks: seq<Block>, quota: nat, enforce: bool, i: nat, used: nat)
    requires i <= |blocks|
    ensures var parts := SelectFrom(blocks, quota, enforce, i, used);
      && |parts| <= |blocks| - i
      && (forall k :: 0 <= k < |parts| - 1 ==> parts[k] == Formatted(blocks[i + k]))
      && (!enforce ==> |parts| == |blocks| - i && forall k :: 0 <= k < |parts| ==> parts[k] == Formatted(blocks[i + k]))
    decreases |blocks| - i
  {
    hide EstimateTokens, Truncated, Formatted, Trim;
    if i < |blocks| {
      var text := Formatted(blocks[i]);
      if !enforce || used + EstimateTokens(text) <= quota {
        BlocksInOrder(blocks, quota, enforce, i + 1, used + EstimateTokens(text));
      }
    }
  }

  /** The last selected text is whole, or it is the truncation of a block that did not fit whole to
      what the earlier ones left of the quota. */
  lemma {:induction false} LastBlock(blocks: seq<Block>, quota: nat, i: nat, used: nat)
    requires i <= |blocks| && SelectFrom(blocks, quota, true, i, used) != []
    ensures |SelectFrom(blocks, quota, true, i, used)| <= |blocks| - i
    ensures var parts := SelectFrom(blocks, quota, true, i, used);
      var last := |parts| - 1;
      var text, before := Formatted(blocks[i + last]), used + TextTokens(parts[..last]);
      if before + EstimateTokens(text) <= quota then parts[last] == text
      else parts[last] == Truncated(text, Monus(quota, before))
    decreases |blocks| - i
  {
    hide EstimateTokens, Truncated, Formatted, Trim, TextTokens;
    NoTextTokens();
    BlocksInOrder(blocks, quota, true, i, used);
    var text := Formatted(blocks[i]);
    var parts := SelectFrom(blocks, quota, true, i, used);
    assert parts[..0] == [];
    if used + EstimateTokens(text) <= quota {
      var rest := SelectFrom(blocks, quota, true, i + 1, used + EstimateTokens(text));
      if rest != [] {
        LastBlock(blocks, quota, i + 1, used + EstimateTokens(text));
        var last := |rest| - 1;
        assert parts[..last + 1] == [text] + rest[..last];
        TextTokensConcat([text], rest[..last]);
        TextTokensOne(text);
      }
    }
  }

  /** A block is its trimmed content, on the line after its trimmed tag if it has one. */
  lemma FormattedIs(b: Block)
    ensures Trim(b.tag) == "" ==> Formatted(b) == Trim(b.content)
    ensures Trim(b.tag) != "" ==> Formatted(b) == Trim(b.tag) + "\n" + Trim(b.content)
  {
  }

  /** The tokens of the `n` blocks from `i` on, each formatted whole. */
  function WholeTokens(blocks: seq<Block>, i: nat, n: nat): nat
    requires i + n <= |blocks|
    decreases n
  {
    if n == 0 then 0 else EstimateTokens(Formatted(blocks[i])) + WholeTokens(blocks, i + 1, n - 1)
  }

  /** What an enforced quota selects, completely: the longest run of whole blocks that fits, and then
      the next block cut to what is left, if the cut leaves anything. */
  lemma {:induction false} BlocksAre(blocks: seq<Block>, quota: nat, i: nat, used: nat) returns (n: nat)
    requires i <= |blocks| && used <= quota
    ensures i + n <= |blocks| && used + WholeTokens(blocks, i, n) <= quota
    ensures var parts := SelectFrom(blocks, quota, true, i, used);
      && n <= |parts| <= n + 1 && (forall k :: 0 <= k < n ==> parts[k] == Formatted(blocks[i + k]))
      && (i + n == |blocks| ==> |parts| == n)
      && (i + n < |blocks| ==>
            var text, left := Formatted(blocks[i + n]), quota - used - WholeTokens(blocks, i, n);
            && EstimateTokens(text) > left
            && (|parts| == n <==> Trim(Truncated(text, left)) == "")
            && (|parts| > n ==> parts[n] == Truncated(text, left)))
    decreases |blocks| - i
  {
    hide EstimateTokens, Truncated, Formatted, Trim;
    n := 0;
    if i < |blocks| && used + EstimateTokens(Formatted(blocks[i])) <= quota {
      n := BlocksAre(blocks, quota, i + 1, used + EstimateTokens(Formatted(blocks[i])));
      n := n + 1;
    }
  }

  /** Blocks that fit together are all selected. */
  lemma {:induction false} AllBlocksFit(blocks: seq<Block>, quota: nat, i: nat, used: nat)
    requires i <= |blocks| && used + WholeTokens(blocks, i, |blocks| - i) <= quota
    ensures |SelectFrom(blocks, quota, true, i, used)| == |blocks| - i
    decreases |blocks| - i
  {
    hide EstimateTokens, Truncated, Formatted, Trim;
    if i < |blocks| { AllBlocksFit(blocks, quota, i + 1, used + EstimateTokens(Formatted(blocks[i]))); }
  }

  // ---------------------------------------------------------------------------------------
  // Joined texts
  // ---------------------------------------------------------------------------------------

  /** `text` is exactly the `parts`, each standing at its place, with one empty line between two. */
  predicate LaidOut(text: string, parts: seq<string>, places: seq<nat>) {
    && |places| == |parts|
    && (parts == [] ==> text == "")
    && (parts != [] ==> places[0] == 0 && places[|parts| - 1] + |parts[|parts| - 1]| == |text|)
    && (forall k :: 0 <= k < |parts| ==> Placed(text, parts, places, k))
  }

  /** Part `k` stands at its place; an empty line and the next part follow. */
  predicate Placed(text: string, parts: seq<string>, places: seq<nat>, k: nat)
    requires |places| == |parts| && k < |parts|
  {
    && StandsAt(text, parts[k], places[k])
    && (k + 1 < |parts| ==>
          StandsAt(text, "\n\n", places[k] + |parts[k]|) && places[k + 1] == places[k] + |parts[k]| + 2)
  }

  predicate StandsAt(text: string, part: string, at: nat) { at + |part| <= |text| && text[at..at + |part|] == part }

  lemma StandsLater(before: string, text: string, part: string, at: nat)
    requires StandsAt(text, part, at)
    ensures StandsAt(before + text, part, |before| + at)
  {
    assert (before + text)[|before| + at..|before| + at + |part|] == text[at..at + |part|];
  }

  function Shifted(places: seq<nat>, offset: nat): (r: seq<nat>)
    ensures |r| == |places| && forall k :: 0 <= k < |r| ==> r[k] == offset + places[k]
  {
    seq(|places|, k requires 0 <= k < |places| => offset + places[k])
  }

  /** Another part in front. */
  lemma LaidOutCons(part: string, text: string, parts: seq<string>, places: seq<nat>)
    requires parts != [] && LaidOut(text, parts, places)
    ensures LaidOut(part + "\n\n" + text, [part] + parts, [0] + Shifted(places, |part| + 2))
  {
    hide StandsAt;
    var head := part + "\n\n";
    var all, texts, at := head + text, [part] + parts, [0] + Shifted(places, |part| + 2);
    Fronts(part, text);
    forall k | 0 <= k < |texts| ensures Placed(all, texts, at, k) {
      if k > 0 {
        assert Placed(text, parts, places, k - 1);
        StandsLater(head, text, parts[k - 1], places[k - 1]);
        if k < |parts| { StandsLater(head, text, "\n\n", places[k - 1] + |parts[k - 1]|); }
      }
    }
    assert texts[0] == part && at[0] == 0 && at[1] == |part| + 2;
    assert texts[|texts| - 1] == parts[|parts| - 1];
  }

  lemma Fronts(part: string, text: string)
    ensures StandsAt(part + "\n\n" + text, part, 0) && StandsAt(part + "\n\n" + text, "\n\n", |part|)
  {
    var all := part + "\n\n" + text;
    assert all[0..|part|] == part && all[|part|..|part| + 2] == "\n\n";
  }

  lemma {:induction false} JoinLaysOut(parts: seq<string>) returns (places: seq<nat>)
    ensures LaidOut(Join(parts), parts, places)
  {
    if |parts| == 0 {
      places := [];
    } else if |parts| == 1 {
      places := [0];
    } else {
      places := JoinLaysOut(parts[1..]);
      LaidOutCons(parts[0], Join(parts[1..]), parts[1..], places);
      assert [parts[0]] + parts[1..] == parts;
      places := [0] + Shifted(places, |parts[0]| + 2);
    }
  }

  /** What is not blank in a part survives the trimming of the whole text. */
  lemma TrimmedPartStays(text: string, part: string, at: nat) returns (place: nat)
    requires StandsAt(text, part, at) && Trim(part) != ""
    ensures StandsAt(Trim(text), Trim(part), place)
  {
    hide Trim;
    var a, b := TrimSplits(text);
    var c, d := TrimSplits(part);
    var t := Trim(part);
    TrimEnds(part);
    var from := at + |c|;
    assert text[from] == t[0] && text[from + |t| - 1] == t[|t| - 1] by {
      assert text[at..at + |part|][|c|] == t[0] && text[at..at + |part|][|c| + |t| - 1] == t[|t| - 1];
    }
    var all := Trim(text);
    forall i | 0 <= i < |a| ensures IsWhitespace(text[i]) { assert text[i] == a[i]; }
    forall i | |a| + |all| <= i < |text| ensures IsWhitespace(text[i]) { assert text[i] == b[i - |a| - |all|]; }
    place := from - |a|;
    forall i | 0 <= i < |t| ensures all[place + i] == t[i] {
      assert text[from + i] == all[place + i];
      assert part[|c| + i] == t[i] && text[at..at + |part|][|c| + i] == text[from + i];
    }
    assert all[place..place + |t|] == t;
  }

  lemma TrimEnds(s: string)
    requires Trim(s) != ""
    ensures !IsWhitespace(Trim(s)[0]) && !IsWhitespace(Trim(s)[|Trim(s)| - 1])
  {
  }

  /** `select_context_blocks`. */
  method SelectContextBlocks(blocks: seq<Block>, quota: nat, enforce: bool) returns (r: BlockSelection)
    ensures r == SelectedBlocks(blocks, quota, enforce)
    ensures enforce ==> r.tokens <= quota
  {
    hide EstimateTokens, Truncated, Formatted, Trim, TextTokens, Join;
    NoTextTokens();
    var selected: seq<string>, used := [], 0;
    ghost var whole := SelectFrom(blocks, quota, enforce, 0, 0);
    assert [] + whole == whole;
    var i := 0;
    while i < |blocks|
      invariant i <= |blocks|
      invariant used == TextTokens(selected)
      invariant selected + SelectFrom(blocks, quota, enforce, i, used) == whole
    {
      var text := Formatted(blocks[i]);
      var tokens := EstimateTokens(text);
      TextTokensConcat(selected, [text]);
      TextTokensOne(text);
      if !enforce || used + tokens <= quota {
        ghost var rest := SelectFrom(blocks, quota, enforce, i + 1, used + tokens);
        assert selected + ([text] + rest) == (selected + [text]) + rest;
        used := used + tokens;
        selected := selected + [text];
        i := i + 1;
        continue;
      }
      var cut := TruncateText(text, Monus(quota, used));
      if Trim(cut) != "" {
        TextTokensConcat(selected, [cut]);
        TextTokensOne(cut);
        used := used + EstimateTokens(cut);
        selected := selected + [cut];
      }
      assert selected == whole;
      break;
    }
    assert selected == whole;
    if enforce { BlocksWithinQuota(blocks, quota, 0, 0); }
    r := BlockSelection(Join(selected), used, |selected|);
  }

  // ---------------------------------------------------------------------------------------
  // Messages
  // ---------------------------------------------------------------------------------------

  /** `role.eq_ignore_ascii_case("user")`. */
  predicate IsUser(m: Message) {
    AsciiLower(m.role) == "user"
  }

  /** A user turn is a message whose role is "user", in any case. */
  lemma IsUserIff(m: Message)
    ensures IsUser(m) <==>
      && |m.role| == 4
      && m.role[0] in {'u', 'U'} && m.role[1] in {'s', 'S'} && m.role[2] in {'e', 'E'} && m.role[3] in {'r', 'R'}
  {
    if |m.role| == 4 {
      var lower := AsciiLower(m.role);
      assert lower == [lower[0], lower[1], lower[2], lower[3]];
      assert "user" == ['u', 's', 'e', 'r'];
    }
  }

  function TextNeed(a: Attachment): nat {
    match a.text case Some(t) => EstimateTokens(t) case None => 0
  }

  function MetadataTokens(a: Attachment): nat {
    EstimateTokens(a.name) + EstimateTokens(a.mimeType)
  }

  function Needs(attachments: seq<Attachment>): (r: seq<nat>)
    ensures |r| == |attachments|
  {
    seq(|attachments|, i requires 0 <= i < |attachments| => TextNeed(attachments[i]))
  }

  function Metadata(attachments: seq<Attachment>): (r: seq<nat>)
    ensures |r| == |attachments|
  {
    seq(|attachments|, i requires 0 <= i < |attachments| => MetadataTokens(attachments[i]))
  }

  function FixedTokens(m: Message): nat {
    4 + EstimateTokens(m.role) + Sum(Metadata(m.attachments))
  }

  /** `estimate_message_tokens`, its attachment sum split into metadata and text. */
  function MessageTokens(m: Message): nat {
    FixedTokens(m) + EstimateTokens(m.content) + Sum(Needs(m.attachments))
  }

  predicate NonBlank(text: Option<string>) { text.Some? && Trim(text.value) != "" }

  /** `message_has_dispatchable_content`. */
  predicate Dispatchable(m: Message) {
    || Trim(m.content) != ""
    || exists i :: 0 <= i < |m.attachments| &&
         (NonBlank(m.attachments[i].text) || NonBlank(m.attachments[i].dataBase64))
  }

  /** Four tokens for a message, and what its texts cost, attachment by attachment. */
  lemma MessageTokensAre(m: Message, a: Attachment)
    ensures MessageTokens(Message("", "", [])) == 4
    ensures MessageTokens(m.(attachments := [])) == 4 + EstimateTokens(m.role) + EstimateTokens(m.content)
    ensures MessageTokens(m.(attachments := m.attachments + [a])) == MessageTokens(m) +
      EstimateTokens(a.name) + EstimateTokens(a.mimeType) + (if a.text.Some? then EstimateTokens(a.text.value) else 0)
  {
    hide EstimateTokens;
    assert EstimateTokens("") == 0 by { EstimateOfTrim(""); TrimFixed(""); }
    var more := m.(attachments := m.attachments + [a]);
    assert Metadata(more.attachments) == Metadata(m.attachments) + [MetadataTokens(a)];
    assert Needs(more.attachments) == Needs(m.attachments) + [TextNeed(a)];
    SumConcat(Metadata(m.attachments), [MetadataTokens(a)]);
    SumConcat(Needs(m.attachments), [TextNeed(a)]);
    OneSum(MetadataTokens(a));
    OneSum(TextNeed(a));
  }

  lemma OneSum(x: nat)
    ensures Sum([x]) == x
  {
    assert [x][..0] == [];
    assert Sum([x][..0]) == 0;
  }

  /** There is something to dispatch in the content, in an attachment's text or in its data. */
  lemma DispatchableIff(m: Message)
    ensures !Dispatchable(m) <==>
      && Trim(m.content) == ""
      && forall i :: 0 <= i < |m.attachments| ==>
           && (m.attachments[i].text.Some? ==> Trim(m.attachments[i].text.value) == "")
           && (m.attachments[i].dataBase64.Some? ==> Trim(m.attachments[i].dataBase64.value) == "")
  {
    hide Trim;
  }

  function TruncatedAttachment(a: Attachment, allocation: nat): Attachment {
    match a.text
    case None => a
    case Some(t) =>
      var cut := Truncated(t, allocation);
      a.(text := if cut != "" then Some(cut) else None)
  }

  function TextBudget(m: Message, budget: nat): nat {
    Monus(budget, FixedTokens(m))
  }

  /** The budget left for text and how it is divided; element 0 belongs to the content. */
  function TextShares(m: Message, budget: nat): (r: seq<nat>)
    ensures |r| == 1 + |m.attachments|
  {
    Allocations([EstimateTokens(m.content)] + Needs(m.attachments), TextBudget(m, budget))
  }

  /** `truncate_message_to_budget`. */
  function TruncatedMessage(m: Message, budget: nat): (r: Message)
    ensures |r.attachments| == |m.attachments| && r.role == m.role
  {
    var shares := TextShares(m, budget);
    m.(content := Truncated(m.content, shares[0]),
       attachments := seq(|m.attachments|, i requires 0 <= i < |m.attachments| =>
         TruncatedAttachment(m.attachments[i], shares[i + 1])))
  }

  method TruncateAttachment(a: Attachment, allocation: nat) returns (r: Attachment)
    ensures r == TruncatedAttachment(a, allocation)
  {
    hide EstimateTokens, Truncated;
    r := a;
    if a.text.Some? {
      var cut := TruncateText(a.text.value, allocation);
      r := a.(text := if cut != "" then Some(cut) else None);
    }
  }

  /** `truncate_message_to_budget`, with its loop over the attachments (lines 445-454). */
  method TruncateMessageToBudget(m: Message, budget: nat) returns (r: Message)
    ensures r == TruncatedMessage(m, budget)
  {
    hide EstimateTokens, Truncated, Allocations, TruncatedAttachment, Sum;
    var needs := [EstimateTokens(m.content)] + Needs(m.attachments);
    var shares := RecencyWeightedAllocations(needs, TextBudget(m, budget));
    var content := TruncateText(m.content, shares[0]);
    var attachments := m.attachments;
    for i := 0 to |attachments|
      invariant |attachments| == |m.attachments|
      invariant forall j :: 0 <= j < i ==> attachments[j] == TruncatedAttachment(m.attachments[j], shares[j + 1])
      invariant forall j :: i <= j < |attachments| ==> attachments[j] == m.attachments[j]
    {
      var cut := TruncateAttachment(attachments[i], shares[i + 1]);
      attachments := attachments[i := cut];
    }
    r := m.(content := content, attachments := attachments);
  }

  lemma AttachmentWithinShare(a: Attachment, allocation: nat)
    ensures TextNeed(TruncatedAttachment(a, allocation)) <= allocation
    ensures MetadataTokens(TruncatedAttachment(a, allocation)) == MetadataTokens(a)
  {
    hide EstimateTokens, Truncated;
    if a.text.Some? { TruncationSound(a.text.value, allocation); }
  }

  /** Truncation touches texts only: each is cut to its share, and one cut to nothing is dropped from its
      attachment. */
  lemma TruncationTouchesTexts(m: Message, budget: nat, i: nat)
    requires i < |m.attachments|
    ensures var r, shares, a := TruncatedMessage(m, budget), TextShares(m, budget), m.attachments[i];
      && r.content == Truncated(m.content, shares[0])
      && r.attachments[i].(text := None) == a.(text := None)
      && (a.text.None? ==> r.attachments[i].text.None?)
      && (a.text.Some? ==>
            var cut := Truncated(a.text.value, shares[i + 1]);
            r.attachments[i].text == if cut == "" then None else Some(cut))
  {
    hide Truncated, TextShares;
  }

  /** A truncated message costs at most its fixed part plus the text budget, so it fits its budget
      whenever the part that truncation cannot touch does. */
  lemma TruncatedMessageFits(m: Message, budget: nat)
    ensures MessageTokens(TruncatedMessage(m, budget)) <= Max(budget, FixedTokens(m))
  {
    hide EstimateTokens, Truncated, Allocations, TruncatedAttachment, TextNeed, MetadataTokens, Sum;
    var r := TruncatedMessage(m, budget);
    var shares := TextShares(m, budget);
    WorkConserving([EstimateTokens(m.content)] + Needs(m.attachments), TextBudget(m, budget));
    TruncationSound(m.content, shares[0]);
    forall i | 0 <= i < |m.attachments|
      ensures Needs(r.attachments)[i] <= shares[1..][i] && Metadata(r.attachments)[i] == Metadata(m.attachments)[i]
    {
      AttachmentWithinShare(m.attachments[i], shares[i + 1]);
    }
    assert Metadata(r.attachments) == Metadata(m.attachments);
    SumMonotone(Needs(r.attachments), shares[1..]);
    SumHead(shares);
  }

  lemma SumHead(s: seq<nat>)
    requires s != []
    ensures Sum(s) == s[0] + Sum(s[1..])
  {
    assert s == s[..1] + s[1..];
    SumConcat(s[..1], s[1..]);
    assert s[..1][..0] == [];
    assert Sum(s[..1][..0]) == 0;
  }

  /** `message_was_condensed`. */
  predicate Condensed(before: Message, after: Message) {
    || Trim(before.content) != Trim(after.content)
    || exists i :: 0 <= i < |before.attachments| && i < |after.attachments| &&
         TrimmedText(before.attachments[i].text) != TrimmedText(after.attachments[i].text)
  }

  function TrimmedText(text: Option<string>): Option<string> {
    match text case Some(t) => Some(Trim(t)) case None => None
  }

  /** The attachment check of lines 232-242. */
  predicate AttachmentsPreserved(before: Message, after: Message) {
    forall i :: 0 <= i < |before.attachments| && i < |after.attachments| ==>
      var text := before.attachments[i].text;
      text == None || text == Some("") || NonBlank(after.attachments[i].text)
  }

  datatype Kept = Kept(message: Message, condensed: bool, attachmentsPreserved: bool)

  /** What becomes of the latest message under a quota (lines 228-250). */
  function KeptLatest(m: Message, quota: nat): Kept {
    if MessageTokens(m) <= quota then Kept(m, false, true)
    else
      var next := TruncatedMessage(m, quota);
      if !Dispatchable(next) && Dispatchable(m) then Kept(m, false, true)
      else Kept(next, Condensed(m, next), AttachmentsPreserved(m, next))
  }

  /** `KeptLatest` by way of the truncation loops. */
  method KeepLatest(m: Message, quota: nat) returns (k: Kept)
    ensures k == KeptLatest(m, quota)
  {
    hide MessageTokens, TruncatedMessage, Dispatchable, Condensed, AttachmentsPreserved;
    if MessageTokens(m) <= quota { return Kept(m, false, true); }
    var next := TruncateMessageToBudget(m, quota);
    k := Kept(next, Condensed(m, next), AttachmentsPreserved(m, next));
    if !Dispatchable(next) && Dispatchable(m) { k := Kept(m, false, true); }
  }

  /** The kept latest message stays dispatchable; the condensed flag says exactly whether some trimmed
      text changed or a text was dropped; and it exceeds the quota only when even its fixed part does, or
      when truncation would have left nothing to send and the original was kept untouched. */
  lemma LatestKept(m: Message, quota: nat)
    ensures var k := KeptLatest(m, quota);
      && (Dispatchable(m) ==> Dispatchable(k.message))
      && (k.condensed <==>
            || Trim(k.message.content) != Trim(m.content)
            || exists i :: 0 <= i < |m.attachments| &&
                 TextChanged(m.attachments[i].text, k.message.attachments[i].text))
      && var cut := MessageTokens(m) > quota && (Dispatchable(TruncatedMessage(m, quota)) || !Dispatchable(m));
      && k.message == (if cut then TruncatedMessage(m, quota) else m)
      && (k.attachmentsPreserved <==>
            (!cut || forall i :: 0 <= i < |m.attachments| ==>
                       !TextLost(m.attachments[i].text, k.message.attachments[i].text)))
      && (MessageTokens(k.message) > quota ==>
            || FixedTokens(m) > quota
            || (k.message == m && Dispatchable(m) && !Dispatchable(TruncatedMessage(m, quota))))
  {
    hide Dispatchable, MessageTokens, FixedTokens, TruncatedMessage, Trim;
    TruncatedMessageFits(m, quota);
    NothingLost(m);
  }

  /** Something of a text is gone after trimming, or all of it. */
  predicate TextChanged(before: Option<string>, after: Option<string>) {
    before.Some? != after.Some? || (before.Some? && Trim(before.value) != Trim(after.value))
  }

  /** A text that was not empty has become blank or is gone. */
  predicate TextLost(before: Option<string>, after: Option<string>) {
    before.Some? && before.value != "" && !(after.Some? && Trim(after.value) != "")
  }

  lemma NothingLost(m: Message)
    ensures forall i :: 0 <= i < |m.attachments| ==> !TextChanged(m.attachments[i].text, m.attachments[i].text)
  {
  }

  // ---------------------------------------------------------------------------------------
  // The window of recent turns
  // ---------------------------------------------------------------------------------------

  /** The number of user turns among the first `k` messages. */
  function UserTurns(messages: seq<Message>, k: nat): nat
    requires k <= |messages|
  {
    if k == 0 then 0 else UserTurns(messages, k - 1) + (if IsUser(messages[k - 1]) then 1 else 0)
  }

  /** The latest user message, or the last message when there is no user turn. */
  function LatestIndex(messages: seq<Message>, k: nat): (r: nat)
    requires k <= |messages| && messages != []
    ensures r < |messages|
    ensures (r < k && IsUser(messages[r])) || (r == |messages| - 1 && forall i :: 0 <= i < k ==> !IsUser(messages[i]))
    ensures r < k ==> forall i :: r < i < k ==> !IsUser(messages[i])
  {
    if k == 0 then |messages| - 1
    else if IsUser(messages[k - 1]) then k - 1
    else LatestIndex(messages, k - 1)
  }

  /** The scan of `working_window_start`: `seen` user turns lie at or after index `k`. */
  function StartFrom(messages: seq<Message>, k: nat, seen: nat, limit: nat): (r: nat)
    requires k <= |messages|
    ensures r <= k
  {
    if k == 0 then 0
    else if IsUser(messages[k - 1]) then
      if seen + 1 == limit then k - 1 else StartFrom(messages, k - 1, seen + 1, limit)
    else StartFrom(messages, k - 1, seen, limit)
  }

  /** `working_window_start`. */
  method WorkingWindowStart(messages: seq<Message>, latest: nat, limit: nat) returns (r: nat)
    requires latest < |messages|
    ensures r == StartFrom(messages, latest + 1, 0, limit)
  {
    var seen := 0;
    for k := latest + 1 downto 0
      invariant StartFrom(messages, k, seen, limit) == StartFrom(messages, latest + 1, 0, limit)
    {
      if IsUser(messages[k]) {
        seen := seen + 1;
        if seen == limit { return k; }
      }
    }
    return 0;
  }

  /** The window holds exactly the wanted number of user turns, or all there are. */
  lemma {:induction false} WindowTurns(messages: seq<Message>, k: nat, seen: nat, limit: nat)
    requires k <= |messages| && seen < limit
    ensures var start := StartFrom(messages, k, seen, limit);
      && UserTurns(messages, k) - UserTurns(messages, start) == Min(limit - seen, UserTurns(messages, k))
      && (start == 0 || (IsUser(messages[start]) && UserTurns(messages, k) >= limit - seen))
  {
    hide IsUser;
    if k > 0 {
      if IsUser(messages[k - 1]) {
        if seen + 1 < limit { WindowTurns(messages, k - 1, seen + 1, limit); }
      } else {
        WindowTurns(messages, k - 1, seen, limit);
      }
    }
  }

  // ---------------------------------------------------------------------------------------
  // Selecting working messages
  // ---------------------------------------------------------------------------------------

  function AllTokens(ms: seq<Message>): nat {
    if ms == [] then 0 else AllTokens(ms[..|ms| - 1]) + MessageTokens(ms[|ms| - 1])
  }

  lemma {:induction false} AllTokensConcat(a: seq<Message>, b: seq<Message>)
    ensures AllTokens(a + b) == AllTokens(a) + AllTokens(b)
  {
    hide MessageTokens;
    if b == [] {
      assert a + b == a;
    } else {
      assert (a + b)[..|a + b| - 1] == a + b[..|b| - 1];
      AllTokensConcat(a, b[..|b| - 1]);
    }
  }

  lemma AllTokensOne(m: Message)
    ensures AllTokens([m]) == MessageTokens(m)
  {
    hide MessageTokens;
    assert [m][..0] == [];
    assert AllTokens([m][..0]) == 0;
  }

  /** The offsets below `k` that are kept when `used` tokens are taken by later messages. The scan
      runs from the newest down and skips, rather than stops at, a message that does not fit. */
  function KeptOffsets(w: seq<Message>, quota: nat, used: nat, k: nat): (r: seq<nat>)
    requires k <= |w|
    ensures forall j :: 0 <= j < |r| ==> r[j] < k
    ensures forall i, j :: 0 <= i < j < |r| ==> r[i] < r[j]
    decreases k
  {
    if k == 0 then []
    else
      var t := MessageTokens(w[k - 1]);
      if used + t <= quota then KeptOffsets(w, quota, used + t, k - 1) + [k - 1]
      else KeptOffsets(w, quota, used, k - 1)
  }

  function Pick(w: seq<Message>, offsets: seq<nat>): (r: seq<Message>)
    requires forall j :: 0 <= j < |offsets| ==> offsets[j] < |w|
    ensures |r| == |offsets| && forall j :: 0 <= j < |r| ==> r[j] == w[offsets[j]]
  {
    seq(|offsets|, j requires 0 <= j < |offsets| => w[offsets[j]])
  }

  function EarlierOffsets(w: seq<Message>, quota: nat): (r: seq<nat>)
    requires w != []
    ensures forall j :: 0 <= j < |r| ==> r[j] < |w| - 1
    ensures forall i, j :: 0 <= i < j < |r| ==> r[i] < r[j]
  {
    KeptOffsets(w, quota, MessageTokens(KeptLatest(w[|w| - 1], quota).message), |w| - 1)
  }

  function KeptWindow(w: seq<Message>, quota: nat): seq<Message>
    requires w != []
  {
    Pick(w, EarlierOffsets(w, quota)) + [KeptLatest(w[|w| - 1], quota).message]
  }

  function Window(messages: seq<Message>, limit: nat): (w: seq<Message>)
    requires messages != []
    ensures w != []
  {
    var latest := LatestIndex(messages, |messages|);
    var start := StartFrom(messages, latest + 1, 0, limit);
    StartBeforeLatest(messages, latest, limit);
    messages[start..latest + 1]
  }

  lemma StartBeforeLatest(messages: seq<Message>, latest: nat, limit: nat)
    requires latest < |messages|
    ensures StartFrom(messages, latest + 1, 0, limit) <= latest
  {
  }

  /** `select_working_messages` as a value. */
  function SelectedMessages(messages: seq<Message>, quota: nat, limit: nat, enforce: bool): WorkingSelection {
    if messages == [] then WorkingSelection([], 0, 0, false, true)
    else
      var w := Window(messages, limit);
      if !enforce then WorkingSelection(w, AllTokens(w), |w|, false, true)
      else
        var kept, k := KeptWindow(w, quota), KeptLatest(w[|w| - 1], quota);
        WorkingSelection(kept, AllTokens(kept), |kept|, k.condensed, k.attachmentsPreserved)
  }

  /** The tokens of the messages at the kept offsets, added to `used`, respect the quota. */
  lemma {:induction false} OffsetsWithinQuota(w: seq<Message>, quota: nat, used: nat, k: nat)
    requires k <= |w|
    ensures used + AllTokens(Pick(w, KeptOffsets(w, quota, used, k))) <= Max(quota, used)
    decreases k
  {
    hide MessageTokens, AllTokens, Pick;
    NoTokens(w);
    if k > 0 {
      var t := MessageTokens(w[k - 1]);
      if used + t <= quota {
        OffsetsWithinQuota(w, quota, used + t, k - 1);
        PickSnoc(w, KeptOffsets(w, quota, used + t, k - 1), k - 1);
      } else {
        OffsetsWithinQuota(w, quota, used, k - 1);
      }
    }
  }

  lemma PickSnoc(w: seq<Message>, offsets: seq<nat>, i: nat)
    requires i < |w| && forall j :: 0 <= j < |offsets| ==> offsets[j] < |w|
    ensures Pick(w, offsets + [i]) == Pick(w, offsets) + [w[i]]
    ensures AllTokens(Pick(w, offsets + [i])) == AllTokens(Pick(w, offsets)) + MessageTokens(w[i])
  {
    hide MessageTokens, AllTokens;
    assert Pick(w, offsets + [i]) == Pick(w, offsets) + [w[i]];
    AllTokensConcat(Pick(w, offsets), [w[i]]);
    AllTokensOne(w[i]);
  }

  /** Under an enforced quota only the latest message can push the working tokens past it. */
  lemma MessagesWithinQuota(messages: seq<Message>, quota: nat, limit: nat)
    requires messages != []
    ensures var w := Window(messages, limit);
      SelectedMessages(messages, quota, limit, true).tokens
        <= Max(quota, MessageTokens(KeptLatest(w[|w| - 1], quota).message))
  {
    hide MessageTokens, KeptLatest, Window, AllTokens, KeptOffsets;
    var w := Window(messages, limit);
    var latest := KeptLatest(w[|w| - 1], quota).message;
    OffsetsWithinQuota(w, quota, MessageTokens(latest), |w| - 1);
    AllTokensConcat(Pick(w, EarlierOffsets(w, quota)), [latest]);
    AllTokensOne(latest);
  }

  /** The kept offsets at or above `from`, as a tail of the list. */
  function TailFrom(offsets: seq<nat>, from: nat): seq<nat> {
    if offsets == [] || offsets[|offsets| - 1] < from then []
    else TailFrom(offsets[..|offsets| - 1], from) + [offsets[|offsets| - 1]]
  }

  lemma {:induction false} TailWithin(w: seq<Message>, offsets: seq<nat>, from: nat)
    requires forall j :: 0 <= j < |offsets| ==> offsets[j] < |w|
    ensures forall j :: 0 <= j < |TailFrom(offsets, from)| ==> TailFrom(offsets, from)[j] < |w|
  {
    if offsets != [] && offsets[|offsets| - 1] >= from { TailWithin(w, offsets[..|offsets| - 1], from); }
  }

  /** Greedy completeness: an offset is left out only because it did not fit beside the newer
      messages that were kept. */
  lemma {:induction false} DroppedDidNotFit(w: seq<Message>, quota: nat, used: nat, k: nat, i: nat)
    requires i < k <= |w|
    requires i !in KeptOffsets(w, quota, used, k)
    ensures forall j :: 0 <= j < |TailFrom(KeptOffsets(w, quota, used, k), i)| ==>
      TailFrom(KeptOffsets(w, quota, used, k), i)[j] < |w|
    ensures used + AllTokens(Pick(w, TailFrom(KeptOffsets(w, quota, used, k), i))) + MessageTokens(w[i]) > quota
    decreases k
  {
    hide MessageTokens, AllTokens;
    var offsets := KeptOffsets(w, quota, used, k);
    TailWithin(w, offsets, i);
    var t := MessageTokens(w[k - 1]);
    if used + t <= quota {
      var lower := KeptOffsets(w, quota, used + t, k - 1);
      assert offsets == lower + [k - 1];
      assert offsets[|offsets| - 1] == k - 1;
      assert offsets[..|offsets| - 1] == lower;
      DroppedDidNotFit(w, quota, used + t, k - 1, i);
      PickSnoc(w, TailFrom(lower, i), k - 1);
      assert TailFrom(offsets, i) == TailFrom(lower, i) + [k - 1];
    } else if i == k - 1 {
      assert TailFrom(offsets, i) == [];
      assert AllTokens(Pick(w, [])) == 0 by { NoTokens(w); }
    } else {
      DroppedDidNotFit(w, quota, used, k - 1, i);
    }
  }

  lemma NothingPicked(w: seq<Message>)
    ensures Pick(w, []) == []
  {
  }

  lemma NoTokens(w: seq<Message>)
    ensures AllTokens(Pick(w, [])) == 0
  {
  }

  function Reverse(ms: seq<Message>): (r: seq<Message>)
    ensures |r| == |ms| && forall i :: 0 <= i < |ms| ==> r[i] == ms[|ms| - 1 - i]
  {
    seq(|ms|, i requires 0 <= i < |ms| => ms[|ms| - 1 - i])
  }

  /** The reverse scan of `select_working_messages` (lines 220-258). */
  method ScanWindow(w: seq<Message>, quota: nat) returns (kept: seq<Message>, condensed: bool, preserved: bool)
    requires w != []
    ensures kept == KeptWindow(w, quota)
    ensures condensed == KeptLatest(w[|w| - 1], quota).condensed
    ensures preserved == KeptLatest(w[|w| - 1], quota).attachmentsPreserved
  {
    hide MessageTokens, KeptLatest, AllTokens, Pick;
    var k := KeepLatest(w[|w| - 1], quota);
    condensed, preserved := k.condensed, k.attachmentsPreserved;
    var rev: seq<Message> := [k.message];
    var used: nat := MessageTokens(k.message);
    assert Reverse(rev) == [k.message];
    for offset := |w| - 1 downto 0
      invariant Pick(w, KeptOffsets(w, quota, used, offset)) + Reverse(rev) == KeptWindow(w, quota)
    {
      var t := MessageTokens(w[offset]);
      if used + t <= quota {
        ghost var lower := KeptOffsets(w, quota, used + t, offset);
        PickSnoc(w, lower, offset);
        assert Reverse(rev + [w[offset]]) == [w[offset]] + Reverse(rev);
        assert Pick(w, lower) + [w[offset]] + Reverse(rev) == Pick(w, lower) + Reverse(rev + [w[offset]]);
        used := used + t;
        rev := rev + [w[offset]];
      }
    }
    kept := Reverse(rev);
    NothingPicked(w);
    assert Pick(w, KeptOffsets(w, quota, used, 0)) + kept == kept;
  }

  /** `select_working_messages`. */
  method SelectWorkingMessages(messages: seq<Message>, quota: nat, limit: nat, enforce: bool)
    returns (r: WorkingSelection)
    ensures r == SelectedMessages(messages, quota, limit, enforce)
  {
    hide MessageTokens, KeptLatest, KeptWindow, IsUser, AllTokens;
    if messages == [] { return WorkingSelection([], 0, 0, false, true); }
    var latest := LatestIndex(messages, |messages|);
    var start := WorkingWindowStart(messages, latest, limit);
    StartBeforeLatest(messages, latest, limit);
    var window := messages[start..latest + 1];
    if !enforce { return WorkingSelection(window, AllTokens(window), |window|, false, true); }
    var kept, condensed, preserved := ScanWindow(window, quota);
    r := WorkingSelection(kept, AllTokens(kept), |kept|, condensed, preserved);
  }

  /** The window ends in the latest user message, which is the last user turn, and holds exactly the
      wanted number of user turns, or all of them. */
  predicate TurnsKept(messages: seq<Message>, limit: nat)
    requires messages != []
  {
    var latest := LatestIndex(messages, |messages|);
    && IsUser(messages[latest])
    && UserTurns(messages, latest + 1) == UserTurns(messages, |messages|)
    && UserTurns(messages, latest + 1) - UserTurns(messages, StartFrom(messages, latest + 1, 0, limit))
         == Min(limit, UserTurns(messages, |messages|))
  }

  /** The shape of a selection: an in-order subsequence of the window of recent turns that ends in
      the kept latest message; when there is a user turn, the window holds the wanted turns. */
  lemma SelectionShape(messages: seq<Message>, quota: nat, limit: nat)
    requires messages != [] && limit >= 1
    ensures var w := Window(messages, limit);
      && IsWindow(messages, limit, w)
      && SelectedMessages(messages, quota, limit, true).messages
           == Pick(w, EarlierOffsets(w, quota)) + [KeptLatest(w[|w| - 1], quota).message]
      && Ascending(EarlierOffsets(w, quota), |w| - 1)
      && (UserTurns(messages, |messages|) > 0 ==> TurnsKept(messages, limit))
  {
    hide KeptLatest, IsWindow, EarlierOffsets, UserTurns, SelectedMessages, Window, Ascending, Pick, TurnsKept;
    WindowIs(messages, limit);
    SelectionIs(messages, quota, limit);
    OffsetsAscend(Window(messages, limit), quota);
    if UserTurns(messages, |messages|) > 0 { WindowShape(messages, limit); }
  }

  /** `w` is the stretch of messages from the window's start to the latest one. */
  predicate IsWindow(messages: seq<Message>, limit: nat, w: seq<Message>)
    requires messages != []
  {
    var latest := LatestIndex(messages, |messages|);
    var start := StartFrom(messages, latest + 1, 0, limit);
    start <= latest && w == messages[start..latest + 1] && w[|w| - 1] == messages[latest]
  }

  predicate Ascending(offsets: seq<nat>, bound: nat) {
    && (forall j :: 0 <= j < |offsets| ==> offsets[j] < bound)
    && (forall i, j :: 0 <= i < j < |offsets| ==> offsets[i] < offsets[j])
  }

  lemma OffsetsAscend(w: seq<Message>, quota: nat)
    requires w != []
    ensures Ascending(EarlierOffsets(w, quota), |w| - 1)
  {
    hide EarlierOffsets;
  }

  lemma WindowIs(messages: seq<Message>, limit: nat)
    requires messages != []
    ensures IsWindow(messages, limit, Window(messages, limit))
  {
    hide StartFrom, LatestIndex;
    StartBeforeLatest(messages, LatestIndex(messages, |messages|), limit);
  }

  lemma SelectionIs(messages: seq<Message>, quota: nat, limit: nat)
    requires messages != []
    ensures var w := Window(messages, limit);
      SelectedMessages(messages, quota, limit, true).messages
        == Pick(w, EarlierOffsets(w, quota)) + [KeptLatest(w[|w| - 1], quota).message]
  {
    hide Window, KeptLatest, EarlierOffsets, AllTokens;
  }

  lemma WindowShape(messages: seq<Message>, limit: nat)
    requires messages != [] && limit >= 1 && UserTurns(messages, |messages|) > 0
    ensures TurnsKept(messages, limit)
  {
    hide IsUser, StartFrom, UserTurns, LatestIndex;
    var latest := LatestIndex(messages, |messages|);
    WindowTurns(messages, latest + 1, 0, limit);
    SomeUser(messages, |messages|);
    NoUserAfter(messages, latest + 1, |messages|);
  }

  lemma {:induction false} SomeUser(messages: seq<Message>, k: nat)
    requires k <= |messages| && UserTurns(messages, k) > 0
    ensures exists i :: 0 <= i < k && IsUser(messages[i])
  {
    if !IsUser(messages[k - 1]) { SomeUser(messages, k - 1); }
  }

  lemma {:induction false} NoUserAfter(messages: seq<Message>, a: nat, k: nat)
    requires a <= k <= |messages| && forall i :: a <= i < k ==> !IsUser(messages[i])
    ensures UserTurns(messages, a) == UserTurns(messages, k)
  {
    if a < k { NoUserAfter(messages, a, k - 1); }
  }

  // ---------------------------------------------------------------------------------------
  // Assembly
  // ---------------------------------------------------------------------------------------

  function NonBlankTexts(blocks: seq<Block>): seq<string> {
    if blocks == [] then []
    else
      var text := Formatted(blocks[0]);
      if Trim(text) != "" then [text] + NonBlankTexts(blocks[1..]) else NonBlankTexts(blocks[1..])
  }

  /** `format_blocks`. */
  function CorePrompt(blocks: seq<Block>): string { Join(NonBlankTexts(blocks)) }

  function Section(heading: string, text: string): seq<string> {
    if Trim(text) == "" then [] else [heading + Trim(text)]
  }

  /** `join_system_prompt`. */
  function SystemPrompt(core: string, working: string, longTerm: string): string {
    Join(Section("", core) + Section("Tier 2 Dynamic Working Context\n", working)
         + Section("Tier 3 Dynamic Long-Term Context\n", longTerm))
  }

  /** `weighted_quota`. */
  function WeightedQuota(budget: nat, weight: nat): (q: nat)
    requires weight <= WEIGHT_TOTAL
    ensures q <= budget
  {
    QuotaBound(budget, weight);
    SatMul(budget, weight) / WEIGHT_TOTAL
  }

  lemma QuotaBound(budget: nat, weight: nat)
    requires weight <= WEIGHT_TOTAL
    ensures SatMul(budget, weight) / WEIGHT_TOTAL <= budget
  {
    assert budget * weight <= budget * WEIGHT_TOTAL;
    assert SatMul(budget, weight) <= budget * WEIGHT_TOTAL;
  }

  /** The quotas `assemble_context` derives from the budget and what earlier tiers used. */
  datatype Quotas = Quotas(lower: nat, working: nat, longTerm: nat)

  function QuotasFor(budget: Option<nat>, coreTokens: nat): Quotas {
    match budget
    case None => Quotas(USIZE_MAX, USIZE_MAX, USIZE_MAX)
    case Some(b) =>
      var lower := Monus(b, coreTokens);
      Quotas(lower, Min(WeightedQuota(b, TIER2_WEIGHT), lower), WeightedQuota(b, TIER3_WEIGHT))
  }

  function WorkingContextQuota(r: Request, q: Quotas): nat {
    if r.budget.Some? then q.working / 3 else USIZE_MAX
  }

  function MessageQuota(r: Request, q: Quotas, workingContextTokens: nat): nat {
    if r.budget.Some? then Monus(q.working, workingContextTokens) else USIZE_MAX
  }

  function LongTermQuota(r: Request, q: Quotas, workingContextTokens: nat, workingTokens: nat): nat {
    var rest := Monus(Monus(q.lower, workingContextTokens), workingTokens);
    if r.budget.Some? then Min(q.longTerm, rest) else q.longTerm
  }

  /** `assemble_context`. */
  function Assemble(r: Request): Assembly {
    var enforce := r.budget.Some?;
    var core := CorePrompt(r.core);
    var coreTokens := EstimateTokens(core);
    var q := QuotasFor(r.budget, coreTokens);
    var context := SelectedBlocks(r.working, WorkingContextQuota(r, q), enforce);
    var messageQuota := MessageQuota(r, q, context.tokens);
    var working := SelectedMessages(r.messages, messageQuota, Max(r.turnLimit, 1), enforce);
    var longTerm := SelectedBlocks(r.longTerm, LongTermQuota(r, q, context.tokens, working.tokens), enforce);
    Assembly(
      SystemPrompt(core, context.content, longTerm.content),
      working.messages,
      coreTokens + context.tokens + working.tokens + longTerm.tokens,
      coreTokens, context.tokens, working.tokens, longTerm.tokens,
      Monus(|r.working|, context.count), Monus(|r.messages|, working.count), Monus(|r.longTerm|, longTerm.count),
      working.condensed, working.attachmentsPreserved)
  }

  /** `assemble_context` by way of the selection loops. */
  method AssembleContext(r: Request) returns (a: Assembly)
    ensures a == Assemble(r)
  {
    hide SelectedBlocks, SelectedMessages, CorePrompt, EstimateTokens, SystemPrompt, QuotasFor;
    var enforce := r.budget.Some?;
    var core := CorePrompt(r.core);
    var coreTokens := EstimateTokens(core);
    var q := QuotasFor(r.budget, coreTokens);
    var context := SelectContextBlocks(r.working, WorkingContextQuota(r, q), enforce);
    var working := SelectWorkingMessages(r.messages, MessageQuota(r, q, context.tokens), Max(r.turnLimit, 1), enforce);
    var longTerm := SelectContextBlocks(r.longTerm, LongTermQuota(r, q, context.tokens, working.tokens), enforce);
    a := Assembly(
      SystemPrompt(core, context.content, longTerm.content), working.messages,
      coreTokens + context.tokens + working.tokens + longTerm.tokens,
      coreTokens, context.tokens, working.tokens, longTerm.tokens,
      Monus(|r.working|, context.count), Monus(|r.messages|, working.count), Monus(|r.longTerm|, longTerm.count),
      working.condensed, working.attachmentsPreserved);
  }

  // ---------------------------------------------------------------------------------------
  // What reaches the prompt
  // ---------------------------------------------------------------------------------------

  /** How many of the first `n` blocks are not blank. */
  function NonBlankCount(blocks: seq<Block>, n: nat): nat
    requires n <= |blocks|
  {
    if n == 0 then 0
    else NonBlankCount(blocks, n - 1) + (if Trim(Formatted(blocks[n - 1])) != "" then 1 else 0)
  }

  lemma {:induction false} CountFromFront(blocks: seq<Block>, n: nat)
    requires 0 < n <= |blocks|
    ensures NonBlankCount(blocks, n)
            == NonBlankCount(blocks[1..], n - 1) + (if Trim(Formatted(blocks[0])) != "" then 1 else 0)
  {
    hide Trim, Formatted;
    if n > 1 {
      CountFromFront(blocks, n - 1);
      assert blocks[1..][n - 2] == blocks[n - 1];
    } else {
      assert NonBlankCount(blocks, 0) == 0;
    }
  }

  /** The core texts are the formatted core blocks that are not blank, in order: each stands at the
      position that the ones before it leave, and there are no others. */
  lemma {:induction false} CoreTextsAre(blocks: seq<Block>, i: nat)
    requires i <= |blocks|
    ensures |NonBlankTexts(blocks)| == NonBlankCount(blocks, |blocks|)
    ensures i < |blocks| && Trim(Formatted(blocks[i])) != "" ==>
      && NonBlankCount(blocks, i) < |NonBlankTexts(blocks)|
      && NonBlankTexts(blocks)[NonBlankCount(blocks, i)] == Formatted(blocks[i])
    decreases |blocks|
  {
    hide Trim, Formatted;
    if blocks != [] {
      CountFromFront(blocks, |blocks|);
      CoreTextsAre(blocks[1..], Monus(i, 1));
      if 0 < i < |blocks| {
        CountFromFront(blocks, i);
        assert blocks[1..][i - 1] == blocks[i];
      }
    }
  }

  function Tier2(): string { "Tier 2 Dynamic Working Context\n" }

  function Tier3(): string { "Tier 3 Dynamic Long-Term Context\n" }

  /** The sections of a prompt, each under its heading if it has one, and an empty line between two; a
      section with nothing in it is left out, and so is its heading. */
  function Sections(core: string, tier2: string, working: string, tier3: string, longTerm: string): string {
    core
    + (if core != "" && (working != "" || longTerm != "") then "\n\n" else "")
    + (if working != "" then tier2 + working else "")
    + (if working != "" && longTerm != "" then "\n\n" else "")
    + (if longTerm != "" then tier3 + longTerm else "")
  }

  function Present(text: string, section: string): seq<string> { if text == "" then [] else [section] }

  lemma JoinPresent(text: string, section: string, rest: seq<string>)
    ensures Join(Present(text, section) + rest)
            == if text == "" then Join(rest) else if rest == [] then section else section + "\n\n" + Join(rest)
  {
    if text == "" {
      assert [] + rest == rest;
    } else {
      assert ([section] + rest)[1..] == rest;
    }
  }

  lemma SectionsJoin(c: string, tier2: string, w: string, tier3: string, l: string)
    ensures Join(Present(c, c) + Present(w, tier2 + w) + Present(l, tier3 + l)) == Sections(c, tier2, w, tier3, l)
  {
    hide Join;
    var working, longTerm := tier2 + w, tier3 + l;
    var last := Present(l, longTerm);
    var rest := Present(w, working) + last;
    assert Present(c, c) + Present(w, working) + last == Present(c, c) + rest;
    JoinPresent(c, c, rest);
    JoinPresent(w, working, last);
    JoinPresent(l, longTerm, []);
    NothingJoined();
    assert last + [] == last;
    SectionsAssociate(c, tier2, w, tier3, l);
  }

  lemma NothingJoined()
    ensures Join([]) == ""
  {
  }

  lemma SectionsAssociate(c: string, tier2: string, w: string, tier3: string, l: string)
    ensures var last := if l != "" then tier3 + l else "";
      var rest := if w == "" then last else if l == "" then tier2 + w else tier2 + w + "\n\n" + last;
      Sections(c, tier2, w, tier3, l) == if c == "" then rest else if w == "" && l == "" then c else c + "\n\n" + rest
  {
  }

  lemma PromptIsSections(core: string, working: string, longTerm: string)
    ensures SystemPrompt(core, working, longTerm)
            == Sections(Trim(core), Tier2(), Trim(working), Tier3(), Trim(longTerm))
  {
    hide Trim, Join, Sections;
    SectionsJoin(Trim(core), Tier2(), Trim(working), Tier3(), Trim(longTerm));
    assert "" + Trim(core) == Trim(core);
  }

  /** The texts selected for an assembly, tier by tier. */
  datatype Texts = Texts(core: seq<string>, working: seq<string>, longTerm: seq<string>)

  function TextsOf(r: Request): Texts {
    var a := Assemble(r);
    var q := QuotasFor(r.budget, a.coreTokens);
    Texts(NonBlankTexts(r.core),
          SelectFrom(r.working, WorkingContextQuota(r, q), r.budget.Some?, 0, 0),
          SelectFrom(r.longTerm, LongTermQuota(r, q, a.workingContextTokens, a.workingTokens), r.budget.Some?, 0, 0))
  }

  /** What the system prompt consists of: the core texts, the selected working texts and the selected
      long-term texts, each tier laid out in order with empty lines between, trimmed, under its heading
      if it has one, and left out with its heading if it is blank. The counts are of these texts. */
  lemma PromptShape(r: Request)
    returns (core: string, working: string, longTerm: string, inCore: seq<nat>, inWorking: seq<nat>, inLong: seq<nat>)
    ensures var a, texts := Assemble(r), TextsOf(r);
      && LaidOut(core, texts.core, inCore)
      && LaidOut(working, texts.working, inWorking)
      && LaidOut(longTerm, texts.longTerm, inLong)
      && a.systemPrompt == Sections(Trim(core), "Tier 2 Dynamic Working Context\n", Trim(working),
                                    "Tier 3 Dynamic Long-Term Context\n", Trim(longTerm))
      && a.coreTokens == EstimateTokens(core)
      && a.workingContextTokens == TextTokens(texts.working)
      && a.longTermTokens == TextTokens(texts.longTerm)
      && a.droppedWorkingBlocks == |r.working| - |texts.working|
      && a.droppedLongTermBlocks == |r.longTerm| - |texts.longTerm|
  {
    hide Trim, EstimateTokens, TextTokens, SelectedMessages, LaidOut, SelectFrom, QuotasFor, NonBlankTexts, Join,
         Sections, SystemPrompt, Window;
    var texts := TextsOf(r);
    core, working, longTerm := Join(texts.core), Join(texts.working), Join(texts.longTerm);
    inCore := JoinLaysOut(texts.core);
    inWorking := JoinLaysOut(texts.working);
    inLong := JoinLaysOut(texts.longTerm);
    PromptIsSections(core, working, longTerm);
    var q := QuotasFor(r.budget, Assemble(r).coreTokens);
    BlocksInOrder(r.working, WorkingContextQuota(r, q), r.budget.Some?, 0, 0);
    BlocksInOrder(r.longTerm, LongTermQuota(r, q, Assemble(r).workingContextTokens, Assemble(r).workingTokens),
                  r.budget.Some?, 0, 0);
  }

  /** The core, if there is any, opens the prompt. */
  lemma CoreOpensPrompt(core: string, tier2: string, working: string, tier3: string, longTerm: string)
    ensures core <= Sections(core, tier2, working, tier3, longTerm)
  {
  }

  /** A working text stands after the heading of its tier and before that of the next. */
  lemma WorkingTextStands(core: string, tier2: string, working: string, tier3: string, longTerm: string,
                          text: string, at: nat)
    returns (place: nat, heading: nat, next: nat)
    requires working != "" && StandsAt(working, text, at)
    ensures var prompt := Sections(core, tier2, working, tier3, longTerm);
      && StandsAt(prompt, text, place)
      && StandsAt(prompt, tier2, heading) && heading + |tier2| <= place
      && (longTerm != "" ==> StandsAt(prompt, "\n\n" + tier3, next) && place + |text| <= next)
  {
    hide StandsAt, Sections;
    var before, after := AroundWorking(core, tier2, working, tier3, longTerm);
    var prompt := Sections(core, tier2, working, tier3, longTerm);
    assert prompt == before + tier2 + (working + after);
    place, heading, next := |before + tier2| + at, |before|, |before + tier2 + working|;
    StandsWithin(before + tier2, working, after, text, at);
    Itself(tier2);
    StandsWithin(before, tier2, working + after, tier2, 0);
    StandsFits(working, text, at);
    if longTerm != "" {
      Itself("\n\n" + tier3);
      StandsWithin(before + tier2 + working, "\n\n" + tier3, longTerm, "\n\n" + tier3, 0);
      assert prompt == (before + tier2 + working) + ("\n\n" + tier3) + longTerm;
    }
  }

  lemma AroundWorking(core: string, tier2: string, working: string, tier3: string, longTerm: string)
    returns (before: string, after: string)
    requires working != ""
    ensures Sections(core, tier2, working, tier3, longTerm) == (before + tier2) + working + after
    ensures longTerm != "" ==> after == "\n\n" + tier3 + longTerm
  {
    before := core + (if core != "" then "\n\n" else "");
    after := if longTerm != "" then "\n\n" + tier3 + longTerm else "";
  }

  /** A long-term text stands after the heading of its tier. */
  lemma LongTermTextStands(core: string, tier2: string, working: string, tier3: string, longTerm: string,
                           text: string, at: nat)
    returns (place: nat, heading: nat)
    requires longTerm != "" && StandsAt(longTerm, text, at)
    ensures var prompt := Sections(core, tier2, working, tier3, longTerm);
      StandsAt(prompt, text, place) && StandsAt(prompt, tier3, heading) && heading + |tier3| <= place
  {
    hide StandsAt;
    var prompt := Sections(core, tier2, working, tier3, longTerm);
    var before := prompt[..|prompt| - |tier3| - |longTerm|];
    assert prompt == (before + tier3) + longTerm + "";
    assert prompt == before + tier3 + longTerm;
    place, heading := |before + tier3| + at, |before|;
    StandsWithin(before + tier3, longTerm, "", text, at);
    Itself(tier3);
    StandsWithin(before, tier3, longTerm, tier3, 0);
  }

  lemma Itself(text: string)
    ensures StandsAt(text, text, 0)
  {
    assert text[0..|text|] == text;
  }

  lemma StandsFits(text: string, part: string, at: nat)
    requires StandsAt(text, part, at)
    ensures at + |part| <= |text|
  {
  }

  lemma StandsWithin(before: string, text: string, after: string, part: string, at: nat)
    requires StandsAt(text, part, at)
    ensures StandsAt(before + text + after, part, |before| + at)
  {
    var all := before + text + after;
    assert all[|before| + at..|before| + at + |part|] == text[at..at + |part|];
  }

  /** Every selected working text that is not blank reaches the prompt, after the heading of its tier and
      before that of the next. */
  lemma WorkingTextsReachPrompt(r: Request, k: nat) returns (place: nat, heading: nat)
    requires k < |TextsOf(r).working| && Trim(TextsOf(r).working[k]) != ""
    ensures var prompt, text := Assemble(r).systemPrompt, Trim(TextsOf(r).working[k]);
      StandsAt(prompt, text, place) && StandsAt(prompt, Tier2(), heading) && heading + |Tier2()| <= place
  {
    hide Trim, Assemble, TextsOf, Sections, StandsAt, LaidOut;
    var core, working, longTerm, p, inWorking, s := PromptShape(r);
    var text := TextsOf(r).working[k];
    PartStands(working, TextsOf(r).working, inWorking, k);
    var at := TrimmedPartStays(working, text, inWorking[k]);
    StandsFits(Trim(working), Trim(text), at);
    var next;
    place, heading, next :=
      WorkingTextStands(Trim(core), Tier2(), Trim(working), Tier3(), Trim(longTerm), Trim(text), at);
  }

  lemma PartStands(text: string, parts: seq<string>, places: seq<nat>, k: nat)
    requires LaidOut(text, parts, places) && k < |parts|
    ensures |places| == |parts| && StandsAt(text, parts[k], places[k])
  {
    assert Placed(text, parts, places, k);
  }

  /** So does every selected long-term text. */
  lemma LongTermTextsReachPrompt(r: Request, k: nat) returns (place: nat, heading: nat)
    requires k < |TextsOf(r).longTerm| && Trim(TextsOf(r).longTerm[k]) != ""
    ensures var prompt, text := Assemble(r).systemPrompt, Trim(TextsOf(r).longTerm[k]);
      StandsAt(prompt, text, place) && StandsAt(prompt, Tier3(), heading) && heading + |Tier3()| <= place
  {
    hide Trim, Assemble, TextsOf, Sections, StandsAt, LaidOut;
    var core, working, longTerm, p, s, inLong := PromptShape(r);
    var text := TextsOf(r).longTerm[k];
    PartStands(longTerm, TextsOf(r).longTerm, inLong, k);
    var at := TrimmedPartStays(longTerm, text, inLong[k]);
    StandsFits(Trim(longTerm), Trim(text), at);
    place, heading := LongTermTextStands(Trim(core), Tier2(), Trim(working), Tier3(), Trim(longTerm), Trim(text), at);
  }

  // ---------------------------------------------------------------------------------------
  // How much each tier may use
  // ---------------------------------------------------------------------------------------

  /** Forty hundredths of the budget, or what the core leaves, are for working blocks and messages. */
  function WorkingShare(budget: nat, coreTokens: nat): nat { Min(SatMul(budget, 40) / 100, Monus(budget, coreTokens)) }

  /** Fifteen hundredths, or what all earlier tiers leave, are for long-term blocks. */
  function LongTermShare(budget: nat, a: Assembly): nat {
    Min(SatMul(budget, 15) / 100,
        Monus(Monus(Monus(budget, a.coreTokens), a.workingContextTokens), a.workingTokens))
  }

  /** Each tier stays within its share, the latest message aside, and drops nothing that fits it. */
  lemma TiersUseTheirShares(r: Request)
    requires r.budget.Some?
    ensures var a, b := Assemble(r), r.budget.value;
      && a.workingContextTokens <= WorkingShare(b, a.coreTokens) / 3
      && (WholeTokens(r.working, 0, |r.working|) <= WorkingShare(b, a.coreTokens) / 3 ==> a.droppedWorkingBlocks == 0)
      && LatestQuota(r) == Monus(WorkingShare(b, a.coreTokens), a.workingContextTokens)
      && a.longTermTokens <= LongTermShare(b, a)
      && (WholeTokens(r.longTerm, 0, |r.longTerm|) <= LongTermShare(b, a) ==> a.droppedLongTermBlocks == 0)
  {
    hide SelectedMessages, EstimateTokens, CorePrompt, SystemPrompt, SelectFrom, TextTokens, WholeTokens;
    var a, b := Assemble(r), r.budget.value;
    var q := QuotasFor(r.budget, a.coreTokens);
    var working, longTerm := WorkingContextQuota(r, q), LongTermQuota(r, q, a.workingContextTokens, a.workingTokens);
    assert working == WorkingShare(b, a.coreTokens) / 3 && longTerm == LongTermShare(b, a);
    BlockTokensWithin(r.working, working);
    BlockTokensWithin(r.longTerm, longTerm);
    if WholeTokens(r.working, 0, |r.working|) <= working { AllBlocksFit(r.working, working, 0, 0); }
    if WholeTokens(r.longTerm, 0, |r.longTerm|) <= longTerm { AllBlocksFit(r.longTerm, longTerm, 0, 0); }
  }

  /** A window of messages that fits is kept whole. */
  lemma {:induction false} AllOffsetsKept(w: seq<Message>, quota: nat, used: nat, k: nat)
    requires k <= |w| && used + AllTokens(w[..k]) <= quota
    ensures |KeptOffsets(w, quota, used, k)| == k
    ensures forall i :: 0 <= i < k ==> KeptOffsets(w, quota, used, k)[i] == i
    decreases k
  {
    hide MessageTokens;
    if k > 0 {
      assert w[..k][..k - 1] == w[..k - 1];
      AllOffsetsKept(w, quota, used + MessageTokens(w[k - 1]), k - 1);
    }
  }

  lemma FittingWindowIsKept(messages: seq<Message>, quota: nat, limit: nat)
    requires messages != [] && AllTokens(Window(messages, limit)) <= quota
    ensures var s := SelectedMessages(messages, quota, limit, true);
      s.messages == Window(messages, limit) && !s.condensed && s.attachmentsPreserved && s.count == |s.messages|
  {
    hide MessageTokens, Window, KeptOffsets, TruncatedMessage, Dispatchable;
    var w := Window(messages, limit);
    var n := |w| - 1;
    assert w[..n + 1] == w && AllTokens(w) == AllTokens(w[..n]) + MessageTokens(w[n]);
    AllOffsetsKept(w, quota, MessageTokens(w[n]), n);
    assert Pick(w, EarlierOffsets(w, quota)) == w[..n];
    assert w[..n] + [w[n]] == w;
  }

  /** So messages whose window fits what the working blocks leave are all kept as they are. */
  lemma FittingMessagesAreKept(r: Request)
    requires r.budget.Some? && r.messages != []
    requires AllTokens(Window(r.messages, Max(r.turnLimit, 1))) <= LatestQuota(r)
    ensures var a := Assemble(r);
      && a.messages == Window(r.messages, Max(r.turnLimit, 1)) && !a.condensed && a.attachmentsPreserved
      && a.droppedMessages == |r.messages| - |a.messages|
  {
    hide SelectedBlocks, SelectedMessages, Window, AllTokens, CorePrompt, EstimateTokens, SystemPrompt;
    FittingWindowIsKept(r.messages, LatestQuota(r), Max(r.turnLimit, 1));
    WindowIs(r.messages, Max(r.turnLimit, 1));
  }

  /** The tokens of the latest message as it is kept, and the quota it was kept under. */
  function LatestQuota(r: Request): nat {
    MessageQuota(r, QuotasFor(r.budget, Assemble(r).coreTokens), Assemble(r).workingContextTokens)
  }

  function LatestTokens(r: Request): nat {
    if r.messages == [] then 0
    else
      var w := Window(r.messages, Max(r.turnLimit, 1));
      MessageTokens(KeptLatest(w[|w| - 1], LatestQuota(r)).message)
  }

  // ---------------------------------------------------------------------------------------
  // How many passes the allocator takes for an assembly
  // ---------------------------------------------------------------------------------------

  /** The needs among which the text budget of a message is divided. */
  function MessageNeeds(m: Message): (r: seq<nat>)
    ensures |r| == 1 + |m.attachments|
  {
    [EstimateTokens(m.content)] + Needs(m.attachments)
  }

  /** Whatever the budget, the message tier is given at most a hundredth of the `usize` range. */
  lemma TextBudgetBound(r: Request, m: Message)
    requires r.budget.Some?
    ensures TextBudget(m, LatestQuota(r)) * 100 <= USIZE_MAX
  {
    hide Assemble, FixedTokens;
  }

  /** So a message without attachments is divided in one pass, and one with attachments in no more
      passes than it has non-blank texts, as long as the text budget is narrow for its last attachment. */
  lemma MessagePasses(r: Request, m: Message)
    requires r.budget.Some?
    requires m.attachments == [] || Narrow(TextBudget(m, LatestQuota(r)), Weight(|m.attachments|))
    ensures Rounds(MessageNeeds(m), TextBudget(m, LatestQuota(r))) <= |PositiveFrom(MessageNeeds(m), 0)|
  {
    hide Rounds, PositiveFrom, TextBudget, LatestQuota, EstimateTokens;
    TextBudgetBound(r, m);
    RoundsBound(MessageNeeds(m), TextBudget(m, LatestQuota(r)));
  }

  /** The condition is needed. With the largest budget, no other blocks and one attachment that alone
      asks for all of its text budget, the allocator takes more than one pass. */
  lemma LargestBudgetTakesMorePasses(r: Request, m: Message)
    requires r.budget == Some(USIZE_MAX) && r.core == [] && r.working == []
    requires |m.attachments| == 1 && Trim(m.content) == "" && FixedTokens(m) <= 8_000_000_000_000_000
    requires TextNeed(m.attachments[0]) >= TextBudget(m, LatestQuota(r))
    ensures Rounds(MessageNeeds(m), TextBudget(m, LatestQuota(r))) > 1
  {
    hide Rounds, EstimateTokens, Trim, FixedTokens, TextNeed, SelectedMessages, SystemPrompt;
    LargestQuota(r);
    EstimateOfTrim(m.content);
    var need, budget := TextNeed(m.attachments[0]), TextBudget(m, LatestQuota(r));
    assert MessageNeeds(m) == Lone(2, need);
    LonePartRounds(2, need, budget);
  }

  /** Such a request exists: its one attachment holds a single word of the right length. */
  lemma LargestBudgetRequest() returns (r: Request, m: Message)
    ensures r.messages == [m] && r.budget == Some(USIZE_MAX)
    ensures Rounds(MessageNeeds(m), TextBudget(m, LatestQuota(r))) > |PositiveFrom(MessageNeeds(m), 0)|
  {
    hide Rounds, TextBudget, LatestQuota, PositiveFrom;
    var size: nat := USIZE_MAX / 100 * 4;
    var text := seq(size, i => 'a');
    m := Message("user", "", [Attachment("", "", size, None, Some(text), None)]);
    r := Request([], [], [m], [], Some(USIZE_MAX), 1);
    LongWord(text);
    SmallFixedPart(m);
    LargestQuota(r);
    TextBudgetBelow(m, LatestQuota(r));
    LargestBudgetTakesMorePasses(r, m);
    var need := TextNeed(m.attachments[0]);
    assert EstimateTokens("") == 0 by { TrimFixed(""); }
    assert MessageNeeds(m) == Lone(2, need);
    LonePositive(2, need, 0);
  }

  lemma LongWord(text: string)
    requires |text| > 0 && |text| % 4 == 0 && forall i :: 0 <= i < |text| ==> text[i] == 'a'
    ensures EstimateTokens(text) >= |text| / 4
  {
    TrimFixed(text);
  }

  lemma TextBudgetBelow(m: Message, quota: nat)
    ensures TextBudget(m, quota) <= quota
  {
  }

  lemma SmallFixedPart(m: Message)
    requires m.role == "user" && |m.attachments| == 1 && m.attachments[0].name == "" && m.attachments[0].mimeType == ""
    ensures FixedTokens(m) <= 100
  {
    hide Trim, Words;
    TrimFixed("");
    TrimFixed("user");
    WordsOfWord("user");
    SumHead(Metadata(m.attachments));
    assert Sum(Metadata(m.attachments)[1..]) == 0;
  }

  lemma LargestQuota(r: Request)
    requires r.budget == Some(USIZE_MAX) && r.core == [] && r.working == []
    ensures LatestQuota(r) == USIZE_MAX / 100
  {
    hide SelectedMessages, SystemPrompt;
    TrimFixed("");
    assert CorePrompt([]) == "" && EstimateTokens("") == 0;
    assert SelectedBlocks([], 0, true).tokens == 0;
  }

  lemma BlockTokensWithin(blocks: seq<Block>, quota: nat)
    ensures SelectedBlocks(blocks, quota, true).tokens <= quota
  {
    BlocksWithinQuota(blocks, quota, 0, 0);
  }

  lemma WorkingTokensWithin(messages: seq<Message>, quota: nat, limit: nat)
    requires limit >= 1
    ensures SelectedMessages(messages, quota, limit, true).tokens <= Max(quota,
      if messages == [] then 0
      else var w := Window(messages, limit); MessageTokens(KeptLatest(w[|w| - 1], quota).message))
  {
    hide MessageTokens, KeptLatest, Window, AllTokens, KeptWindow;
    if messages != [] { MessagesWithinQuota(messages, quota, limit); }
  }

  /** The budget theorem. The estimate is at most the budget, or else what the core, the working
      blocks and the kept latest message cost by themselves. When the core fits the budget and the
      kept latest message fits its quota, the whole assembly fits the budget. */
  lemma BudgetTheorem(r: Request)
    requires r.budget.Some?
    ensures var a, b := Assemble(r), r.budget.value;
      && a.estimatedTokens == a.coreTokens + a.workingContextTokens + a.workingTokens + a.longTermTokens
      && a.estimatedTokens <= Max(b, a.coreTokens + a.workingContextTokens + LatestTokens(r))
      && (a.coreTokens <= b && LatestTokens(r) <= LatestQuota(r) ==> a.estimatedTokens <= b)
  {
    hide SelectedBlocks, SelectedMessages, MessageTokens, KeptLatest, Window, CorePrompt, EstimateTokens, SystemPrompt;
    var a := Assemble(r);
    var q := QuotasFor(r.budget, a.coreTokens);
    BlockTokensWithin(r.working, WorkingContextQuota(r, q));
    WorkingTokensWithin(r.messages, LatestQuota(r), Max(r.turnLimit, 1));
    BlockTokensWithin(r.longTerm, LongTermQuota(r, q, a.workingContextTokens, a.workingTokens));
  }

  /** Without a budget nothing is truncated or dropped, except messages before the turn window and
      after the latest user turn. */
  lemma NoBudgetKeepsEverything(r: Request)
    requires r.budget.None?
    ensures var a := Assemble(r);
      && a.droppedWorkingBlocks == 0 && a.droppedLongTermBlocks == 0 && !a.condensed
      && (r.messages != [] ==> a.messages == Window(r.messages, Max(r.turnLimit, 1)))
  {
    hide EstimateTokens, Truncated, Formatted, Trim, CorePrompt, Window, AllTokens, Join, TextTokens, SystemPrompt;
    BlocksInOrder(r.working, USIZE_MAX, false, 0, 0);
    BlocksInOrder(r.longTerm, USIZE_MAX, false, 0, 0);
  }

  /** The latest turn always reaches the model: with any messages at all, the assembly ends in the
      latest user message (the last message if there is none), and never loses its content. */
  lemma LatestTurnSurvives(r: Request)
    requires r.messages != []
    ensures var a := Assemble(r);
      var latest := r.messages[LatestIndex(r.messages, |r.messages|)];
      && a.messages != []
      && (Dispatchable(latest) ==> Dispatchable(a.messages[|a.messages| - 1]))
      && a.messages[|a.messages| - 1].role == latest.role
  {
    hide SelectedBlocks, MessageTokens, CorePrompt, EstimateTokens, SystemPrompt, Dispatchable, IsUser, AllTokens,
         KeptOffsets, TruncatedMessage, Condensed, AttachmentsPreserved;
    var limit := Max(r.turnLimit, 1);
    SelectionShape(r.messages, LatestQuota(r), limit);
    LatestKept(r.messages[LatestIndex(r.messages, |r.messages|)], LatestQuota(r));
  }
}
