/** The choices of the feed search box: a placeholder, then one entry per feed. */
module DashboardForms {
  import Models

  /** The label of one feed: "state - organization", or the organization
      alone when the state is empty. */
  function ChoiceLabel(state: string, issuingorganization: string): (shown: string)
    ensures |shown| >= |issuingorganization| && shown[|shown| - |issuingorganization|..] == issuingorganization
    ensures state == "" ==> shown == issuingorganization
    ensures state != "" ==> |shown| == |state| + 3 + |issuingorganization| && shown[..|state| + 3] == state + " - "
  {
    (if state != "" then state + " - " else "") + issuingorganization
  }

  /** `FEED_CHOICES()` over the feed rows in query order: a placeholder with an
      empty value, then one choice per feed valued by its name. */
  function FeedChoices(feeds: seq<Models.Feed>): (choices: seq<(string, string)>)
    ensures |choices| == |feeds| + 1
    ensures choices[0] == ("", "Find a feed!")
    ensures forall i :: 0 <= i < |feeds| ==>
      choices[i + 1] == (feeds[i].feedname, ChoiceLabel(feeds[i].state, feeds[i].issuingorganization))
  {
    [("", "Find a feed!")] +
    seq(|feeds|, i requires 0 <= i < |feeds| => (feeds[i].feedname, ChoiceLabel(feeds[i].state, feeds[i].issuingorganization)))
  }

  /** A feed name that is a choice's value belongs to a feed, and every feed can be chosen. */
  lemma FeedChoicesCoverFeeds(feeds: seq<Models.Feed>, name: string)
    ensures name != "" ==>
      ((exists c :: c in FeedChoices(feeds) && c.0 == name) <==> exists f :: f in feeds && f.feedname == name)
  {
    var choices := FeedChoices(feeds);
    if name != "" {
      if c :| c in choices && c.0 == name {
        var k :| 0 <= k < |choices| && choices[k] == c;
        assert feeds[k - 1] in feeds;
      }
      if f :| f in feeds && f.feedname == name {
        var k :| 0 <= k < |feeds| && feeds[k] == f;
        assert choices[k + 1] in choices;
      }
    }
  }
}
