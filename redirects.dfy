/** Redirect history: the `redirected_from` chain of the final navigation
    request, walked from the nearest hop back to the first request, then
    reported to the caller oldest first. */
module Redirects {
  import opened Common
  import opened Engine
  import opened Requests

  function Reversed<T>(s: seq<T>): (r: seq<T>)
  {
    seq(|s|, k requires 0 <= k < |s| => s[|s| - 1 - k])
  }

  /** The chain in the order the requests were made: the first request
      first, the one that led to the final response last. */
  function Chronological(chain: seq<Hop>): (r: RedirectMeta)
  {
    RedirectMeta(|chain|, seq(|chain|, k requires 0 <= k < |chain| => chain[|chain| - 1 - k].url),
                 seq(|chain|, k requires 0 <= k < |chain| => chain[|chain| - 1 - k].status))
  }

  /** The walk of `_set_redirect_meta`: one count, one URL and one reason
      per hop, the reason `None` for a hop without a response; the lists
      are then reversed into chronological order. */
  method CollectRedirects(chain: seq<Hop>) returns (times: nat, urls: seq<string>, reasons: seq<Option<int>>)
    ensures times == |chain| && |urls| == |chain| && |reasons| == |chain|
    ensures forall k :: 0 <= k < |chain| ==>
      urls[k] == chain[|chain| - 1 - k].url && reasons[k] == chain[|chain| - 1 - k].status
  {
    times, urls, reasons := 0, [], [];
    var i := 0;
    while i < |chain|
      invariant 0 <= i <= |chain|
      invariant times == i && |urls| == i && |reasons| == i
      invariant forall k :: 0 <= k < i ==> urls[k] == chain[k].url && reasons[k] == chain[k].status
    {
      times := times + 1;
      urls := urls + [chain[i].url];
      reasons := reasons + [chain[i].status];
      i := i + 1;
    }
    urls := Reversed(urls);
    reasons := Reversed(reasons);
  }

  /** `_set_redirect_meta`: the meta entries are written only when there
      was at least one redirect. */
  method SetRedirectMeta(request: ScrapyRequest, chain: seq<Hop>)
    modifies request`redirect
    ensures chain == [] ==> request.redirect == old(request.redirect)
    ensures chain != [] ==> request.redirect == Some(Chronological(chain))
  {
    var times, urls, reasons := CollectRedirects(chain);
    if times > 0 {
      assert RedirectMeta(times, urls, reasons) == Chronological(chain);
      request.redirect := Some(RedirectMeta(times, urls, reasons));
    }
  }

  /** Two redirects (302, then 301) before the final response: the count is
      two and the URLs and reasons come oldest first. */
  lemma TwoRedirectsInOrder(first: string, second: string)
    ensures Chronological([Hop(second, Some(301)), Hop(first, Some(302))]) ==
            RedirectMeta(2, [first, second], [Some(302), Some(301)])
  {
  }
}
