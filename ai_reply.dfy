/**
 * Reading the text of an AI reply: the first text block of the reply's
 * content (or "{}" when there is none), with a leading "```" / "```json"
 * fence and a trailing "```" fence removed by two anchored regular
 * expressions, `^```(?:json)?\s*\n?` and `\n?```\s*$`. `\s` is taken as
 * ASCII whitespace.
 */
module AiReply {
  import opened Wrappers
  import opened Strings

  datatype ContentBlock = TextBlock(text: string) | OtherBlock(kind: string)

  const Fence: string := "```"
  const JsonTag: string := "json"
  const EmptyObject: string := "{}"

  /** `content.find(b => b.type === 'text')`, as an index. */
  function FindText(blocks: seq<ContentBlock>, from: nat): (k: Option<nat>)
    requires from <= |blocks|
    ensures k.Some? ==> from <= k.value < |blocks| && blocks[k.value].TextBlock?
    ensures k.Some? ==> forall j :: from <= j < k.value ==> !blocks[j].TextBlock?
    ensures k.None? ==> forall j :: from <= j < |blocks| ==> !blocks[j].TextBlock?
    decreases |blocks| - from
  {
    if from == |blocks| then None
    else if blocks[from].TextBlock? then Some(from)
    else FindText(blocks, from + 1)
  }

  /** The raw reply text: the first text block's text, or "{}" when the reply has no text block. */
  function RawText(blocks: seq<ContentBlock>): (r: string)
    ensures r == EmptyObject || exists k :: 0 <= k < |blocks| && blocks[k] == TextBlock(r)
  {
    match FindText(blocks, 0)
    case Some(k) => blocks[k].text
    case None => EmptyObject
  }

  /** The raw text skips the blocks that are not text and takes the first text block. */
  lemma RawTextSelectsFirstText(blocks: seq<ContentBlock>, k: nat)
    requires k < |blocks| && blocks[k].TextBlock?
    requires forall j :: 0 <= j < k ==> !blocks[j].TextBlock?
    ensures RawText(blocks) == blocks[k].text
  {
  }

  /** A reply without any text block reads as "{}". */
  lemma RawTextWithoutText(blocks: seq<ContentBlock>)
    requires forall j :: 0 <= j < |blocks| ==> !blocks[j].TextBlock?
    ensures RawText(blocks) == EmptyObject
  {
  }

  /** `replace(/^```(?:json)?\s*\n?/, '')`: the fence, the optional tag, then all leading whitespace. */
  function StripLeadingFence(s: string): (r: string)
    ensures |r| <= |s| && r == s[|s| - |r|..]
    ensures !(Fence <= s) ==> r == s
    ensures Fence <= s ==> r == [] || !IsSpace(r[0])
  {
    if Fence <= s then
      var rest := s[|Fence|..];
      TrimStart(if JsonTag <= rest then rest[|JsonTag|..] else rest)
    else s
  }

  /** Position `i` of `s` starts a match of `\n?```\s*$`. */
  predicate TrailingFenceAt(s: string, i: nat) {
    || (i + 3 <= |s| && s[i..i + 3] == Fence && AllSpace(s[i + 3..]))
    || (i + 4 <= |s| && s[i] == '\n' && s[i + 1..i + 4] == Fence && AllSpace(s[i + 4..]))
  }

  /** The leftmost position, from `from` on, where the trailing-fence pattern matches. */
  function FindTrailingFence(s: string, from: nat): (k: Option<nat>)
    requires from <= |s|
    ensures k.Some? ==> from <= k.value <= |s| && TrailingFenceAt(s, k.value)
    ensures k.Some? ==> forall j :: from <= j < k.value ==> !TrailingFenceAt(s, j)
    ensures k.None? ==> forall j :: from <= j <= |s| ==> !TrailingFenceAt(s, j)
    decreases |s| - from
  {
    if TrailingFenceAt(s, from) then Some(from)
    else if from == |s| then None
    else FindTrailingFence(s, from + 1)
  }

  /** `replace(/\n?```\s*$/, '')`: cut at the leftmost match, if there is one. */
  function StripTrailingFence(s: string): (r: string)
    ensures |r| <= |s| && r == s[..|r|]
    ensures r != s ==> TrailingFenceAt(s, |r|)
  {
    match FindTrailingFence(s, 0)
    case Some(k) => s[..k]
    case None => s
  }

  /**
   * Both replacements, in the source's order. What they yield on fenced and
   * unfenced replies is stated by StripJsonFence, StripPlainFence and
   * StripWithoutFences below.
   */
  function StripFences(s: string): (r: string)
    ensures |r| <= |s|
  {
    StripTrailingFence(StripLeadingFence(s))
  }

  /** What `JSON.parse` is given: the first text block of the reply, fences stripped. */
  function ReplyContent(blocks: seq<ContentBlock>): (r: string)
    ensures |r| <= |RawText(blocks)|
  {
    StripFences(RawText(blocks))
  }

  /** A body followed by "\n```" loses exactly that fence: no earlier position can match, as the text ends in a backtick. */
  lemma StripTrailingAfterBody(x: string)
    ensures StripTrailingFence(x + "\n" + Fence) == x
  {
    var y := x + "\n" + Fence;
    var last := |y| - 1;
    assert y[last] == '`' && !IsSpace(y[last]);
    forall j: nat | j < |x|
      ensures !TrailingFenceAt(y, j)
    {
    }
    assert y[|x|] == '\n' && y[|x| + 1..|x| + 4] == Fence && y[|x| + 4..] == [];
    assert TrailingFenceAt(y, |x|);
    assert y[..|x|] == x;
  }

  lemma TrimStartAfterNewline(z: string)
    requires z != [] && !IsSpace(z[0])
    ensures TrimStart("\n" + z) == z
  {
    assert ("\n" + z)[1..] == z;
  }

  /** The fenced empty reply: the newlines go with the leading fence, the closing fence is what remains. */
  lemma EmptyBodyAfterFence()
    ensures TrimStart("\n" + ("" + "\n" + Fence)) == Fence
    ensures StripTrailingFence(Fence) == []
  {
    TrimStartAfterNewline(Fence);
    assert ("\n" + ("" + "\n" + Fence))[1..] == "\n" + Fence;
    assert TrailingFenceAt(Fence, 0);
  }

  /** What follows the opening fence line: the newline is trimmed and the closing fence cut off. */
  lemma FencedBodyStrips(x: string)
    requires x == [] || !IsSpace(x[0])
    ensures StripTrailingFence(TrimStart("\n" + (x + "\n" + Fence))) == x
  {
    if x == [] {
      EmptyBodyAfterFence();
    } else {
      TrimStartAfterNewline(x + "\n" + Fence);
      StripTrailingAfterBody(x);
    }
  }

  /** The leading pattern with the `json` tag removes the fence, the tag and the whitespace after them. */
  lemma LeadingJsonFence(body: string)
    ensures StripLeadingFence(Fence + (JsonTag + body)) == TrimStart(body)
  {
    var s := Fence + (JsonTag + body);
    assert s[..|Fence|] == Fence;
    assert s[|Fence|..] == JsonTag + body;
    assert (JsonTag + body)[..|JsonTag|] == JsonTag;
    assert (JsonTag + body)[|JsonTag|..] == body;
  }

  /** The leading pattern without a tag removes the fence and the whitespace after it. */
  lemma LeadingPlainFence(body: string)
    requires body != [] && body[0] == '\n'
    ensures StripLeadingFence(Fence + body) == TrimStart(body)
  {
    var s := Fence + body;
    assert s[..|Fence|] == Fence;
    assert s[|Fence|..] == body;
    assert body[0] != JsonTag[0];
  }

  /** "```json\n" + X + "\n```" strips to X, for a reply X that is empty or does not start with whitespace. */
  lemma StripJsonFence(x: string)
    requires x == [] || !IsSpace(x[0])
    ensures StripFences(Fence + JsonTag + "\n" + x + "\n" + Fence) == x
  {
    var body := "\n" + (x + "\n" + Fence);
    assert Fence + JsonTag + "\n" + x + "\n" + Fence == Fence + (JsonTag + body);
    LeadingJsonFence(body);
    FencedBodyStrips(x);
  }

  /** "```\n" + X + "\n```" strips to X, for a reply X that is empty or does not start with whitespace. */
  lemma StripPlainFence(x: string)
    requires x == [] || !IsSpace(x[0])
    ensures StripFences(Fence + "\n" + x + "\n" + Fence) == x
  {
    var body := "\n" + (x + "\n" + Fence);
    assert Fence + "\n" + x + "\n" + Fence == Fence + body;
    LeadingPlainFence(body);
    FencedBodyStrips(x);
  }

  /** Text with neither a leading nor a trailing fence passes through unchanged. */
  lemma StripWithoutFences(s: string)
    requires !(Fence <= s)
    requires forall i: nat :: i <= |s| ==> !TrailingFenceAt(s, i)
    ensures StripFences(s) == s
  {
  }
}
