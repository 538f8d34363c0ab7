/** The companion node that splits the Whisk node's prompt list into four
    outputs. The JSON text layer (`json.loads`) is not modelled: the node receives
    the decoded list. */
module WhiskPrompts {

  /** `[""] * n`, which Python reads as the empty list for n <= 0. */
  function Blanks(n: int): (r: seq<string>)
    ensures |r| == if n > 0 then n else 0
    ensures forall i :: 0 <= i < |r| ==> r[i] == ""
  {
    if n > 0 then seq(n, _ => "") else []
  }

  /** `process_prompts`: pads the list in place to four entries and returns the
      first four. Entry k is the k-th prompt when there is one and "" otherwise;
      prompts beyond the fourth are dropped. */
  method ProcessPrompts(prompts: seq<string>) returns (prompt1: string, prompt2: string, prompt3: string, prompt4: string)
    ensures var out := [prompt1, prompt2, prompt3, prompt4];
      forall k :: 0 <= k < 4 ==> out[k] == if k < |prompts| then prompts[k] else ""
  {
    var promptsList := prompts;
    promptsList := promptsList + Blanks(4 - |promptsList|);
    prompt1, prompt2, prompt3, prompt4 := promptsList[0], promptsList[1], promptsList[2], promptsList[3];
  }
}
