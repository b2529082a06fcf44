/** The cleanup that the vision agent and the script agent both apply to a model
    response before decoding it as JSON: strip surrounding whitespace, unwrap a Markdown
    code fence and its `json` language tag, and strip again. The two agents carry the same
    lines of code; here they share this one definition. */
module ResponseCleanup {
  import opened Wrappers
  import opened PyStr

  /** The Markdown code-fence delimiter. */
  const Fence: string := "```"

  /** The language tag that may follow an opening fence. */
  const JsonTag: string := "json"

  /** The second piece of `t.split("```")` for a `t` that starts with a fence: the text
      between the opening fence and the next one. A string starting with the separator
      always splits into at least two pieces, so the indexing cannot fail. */
  function FenceBody(t: string): (body: string)
    requires StartsWith(t, Fence)
    ensures FreeOf(body, Fence)
  {
    SplitAfterLeadingSep(t, Fence);
    SplitPiecesFreeOfSep(t, Fence);
    Split(t, Fence)[1]
  }

  /** Removes the four characters of a `json` tag that opens the fenced body. */
  function DropJsonTag(body: string): (r: string)
    ensures |r| <= |body| && r == body[|body| - |r|..]
    ensures |body| - |r| == (if StartsWith(body, JsonTag) then |JsonTag| else 0)
  {
    if StartsWith(body, JsonTag) then body[|JsonTag|..] else body
  }

  /** The cleaned response text (vision_agent.py and script_agent.py, the `raw` chain). */
  function Clean(text: string): (r: string)
    ensures r == [] || (!IsSpace(r[0]) && !IsSpace(r[|r| - 1]))
  {
    var t := Strip(text);
    var u := if StartsWith(t, Fence) then DropJsonTag(FenceBody(t)) else t;
    Strip(u)
  }

  /** A response that does not open with a fence (after stripping) is only stripped. */
  lemma CleanUnfenced(text: string)
    requires !StartsWith(Strip(text), Fence)
    ensures Clean(text) == Strip(text)
  {
    StripIdempotent(text);
  }

  /** A fenced response yields the text after the opening fence up to the next fence (or
      to the end when there is none), minus a `json` tag that comes right after the
      opening fence with nothing in between, stripped. */
  lemma CleanFenced(text: string)
    requires StartsWith(Strip(text), Fence)
    ensures var rest := Strip(text)[|Fence|..];
      var body := match Find(rest, Fence, 0) case Some(j) => rest[..j] case None => rest;
      Clean(text) == Strip(if StartsWith(body, JsonTag) then body[4..] else body)
  {
    SplitAfterLeadingSep(Strip(text), Fence);
  }

  /** Dropping the tag keeps a fence-free body fence-free. */
  lemma DropJsonTagKeepsFenceFree(body: string)
    requires FreeOf(body, Fence)
    ensures FreeOf(DropJsonTag(body), Fence)
  {
    if StartsWith(body, JsonTag) {
      FreeOfSlice(body, Fence, |JsonTag|, |body|);
      assert body[|JsonTag|..] == body[|JsonTag|..|body|];
    }
  }

  /** What a fenced response cleans to holds no fence. */
  lemma CleanFencedHasNoFence(text: string)
    requires StartsWith(Strip(text), Fence)
    ensures FreeOf(Clean(text), Fence)
  {
    var u := DropJsonTag(FenceBody(Strip(text)));
    DropJsonTagKeepsFenceFree(FenceBody(Strip(text)));
    StripKeepsFreeOf(u, Fence);
  }

  /** A text with no surrounding whitespace that does not open with a fence is already clean. */
  lemma CleanFixpoint(r: string)
    requires r == [] || (!IsSpace(r[0]) && !IsSpace(r[|r| - 1]))
    requires !StartsWith(r, Fence)
    ensures Clean(r) == r
  {
    StripOfStripped(r);
  }

  /** Cleaning is idempotent: a cleaned response cleans to itself. */
  lemma CleanIdempotent(text: string)
    ensures Clean(Clean(text)) == Clean(text)
  {
    var r := Clean(text);
    if StartsWith(Strip(text), Fence) {
      CleanFencedHasNoFence(text);
      FreeOfNotStartsWith(r, Fence);
    } else {
      CleanUnfenced(text);
    }
    CleanFixpoint(r);
  }
}
