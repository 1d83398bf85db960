/** Leftmost search for the code fence, the only thing the fence regular expressions need. */
module TextSearch {
  import opened Wrappers

  const FENCE := "```"

  predicate FenceAt(text: string, i: nat) {
    i + 3 <= |text| && text[i] == '`' && text[i + 1] == '`' && text[i + 2] == '`'
  }

  predicate IsFence(s: string) { |s| == 3 && FenceAt(s, 0) }

  predicate HasFence(text: string) {
    exists i | 0 <= i < |text| :: FenceAt(text, i)
  }

  function NextFence(text: string, from: nat): (r: Option<nat>)
    requires from <= |text|
    ensures r.Some? ==> from <= r.value && r.value + 3 <= |text|
    decreases |text| - from
  {
    if FenceAt(text, from) then Some(from)
    else if from == |text| then None
    else NextFence(text, from + 1)
  }

  /** The search finds the first fence, and reports none only when there is none. */
  lemma {:induction false} NextFenceFacts(text: string, from: nat)
    requires from <= |text|
    ensures match NextFence(text, from)
            case Some(i) => FenceAt(text, i) && forall j | from <= j < i :: !FenceAt(text, j)
            case None => forall j: nat | from <= j :: !FenceAt(text, j)
    decreases |text| - from
  {
    if !FenceAt(text, from) && from < |text| {
      NextFenceFacts(text, from + 1);
    }
  }

  lemma FirstFenceIs(text: string, from: nat, i: nat)
    requires from <= i && FenceAt(text, i)
    requires forall j | from <= j < i :: !FenceAt(text, j)
    ensures NextFence(text, from) == Some(i)
  {
    NextFenceFacts(text, from);
  }

  lemma NoFenceFrom(text: string, from: nat)
    requires from <= |text| && forall j: nat | from <= j :: !FenceAt(text, j)
    ensures NextFence(text, from) == None
  {
    NextFenceFacts(text, from);
  }

  /** `text` meets the next fence exactly at its own end. */
  predicate EndsBeforeFence(text: string) {
    !HasFence(text) && (text == "" || text[|text| - 1] != '`')
  }

  lemma NoneBefore(pre: string, text: string, post: string, j: nat)
    requires EndsBeforeFence(text) && j < |text|
    ensures !FenceAt(pre + text + post, |pre| + j)
  {
    var all := pre + text + post;
    assert !FenceAt(text, j);
    assert forall k | 0 <= k < |text| :: all[|pre| + k] == text[k];
  }

  /** After `pre`, the next fence is the one `text` is followed by. */
  lemma FenceAfter(pre: string, text: string, fence: string, post: string)
    requires EndsBeforeFence(text) && IsFence(fence)
    ensures NextFence(pre + text + fence + post, |pre|) == Some(|pre + text|)
  {
    var all := pre + text + fence + post;
    assert all[|pre + text|..|pre + text| + 3] == fence;
    forall j | |pre| <= j < |pre + text|
      ensures !FenceAt(all, j)
    {
      NoneBefore(pre, text, fence + post, j - |pre|);
      assert all == pre + text + (fence + post);
    }
    FirstFenceIs(all, |pre|, |pre + text|);
  }

  /** A text without a fence finds none in any of its tails. */
  lemma NoFenceInTail(pre: string, post: string)
    requires !HasFence(post)
    ensures NextFence(pre + post, |pre|) == None
  {
    forall j: nat | |pre| <= j
      ensures !FenceAt(pre + post, j)
    {
      if j < |pre + post| {
        assert !FenceAt(post, j - |pre|);
      }
    }
    NoFenceFrom(pre + post, |pre|);
  }
}
