/** src/screens/StoryViewerScreen.js: a full-screen viewer that steps through a
    user's stories with tap areas on the left and right. */
module StoryViewerScreen {
  import opened Base
  import opened Seqs

  datatype Story = Story(url: string, caption: string)

  /** The progress bars, one per story: bar `i` is lit iff `i <= index`. */
  function Bars(n: nat, index: int): (bars: seq<bool>)
    ensures |bars| == n
    ensures forall i :: 0 <= i < n ==> (bars[i] <==> i <= index)
  {
    if n == 0 then [] else Bars(n - 1, index) + [n - 1 <= index]
  }

  /** With the index on a story, exactly index + 1 bars are lit. */
  lemma {:induction false} LitBars(n: nat, index: int)
    requires 0 <= index < n
    ensures Count(Bars(n, index), true) == index + 1
  {
    if n - 1 == index {
      AllLit(n, index);
    } else {
      LitBars(n - 1, index);
      CountAppend(Bars(n - 1, index), [false], true);
    }
  }

  lemma {:induction false} AllLit(n: nat, index: int)
    requires n <= index + 1
    ensures Count(Bars(n, index), true) == n
  {
    if n > 0 {
      AllLit(n - 1, index);
      CountAppend(Bars(n - 1, index), [true], true);
    }
  }

  /** What the screen renders: a spinner, nothing, or the current story with its bars. */
  datatype Screen = Spinner | Nothing | Showing(story: Story, bars: seq<bool>)

  class StoryViewer {
    var stories: seq<Story>
    var currentIndex: int
    var loading: bool
    /** Set once `navigation.goBack()` has been called. */
    var closed: bool

    /** The index is on a story, or 0 while there is none. */
    ghost predicate Valid()
      reads this
    {
      0 <= currentIndex && (currentIndex == 0 || currentIndex < |stories|)
    }

    /** Mounting: the preloaded stories, or an empty list and a spinner while they
        are fetched; the index starts at 0. */
    constructor (preloaded: Option<seq<Story>>)
      ensures Valid()
      ensures currentIndex == 0 && !closed
      ensures stories == preloaded.GetOr([]) && loading == preloaded.None?
    {
      stories := preloaded.GetOr([]);
      currentIndex := 0;
      loading := preloaded.None?;
      closed := false;
    }

    /** `fetchUserStories`: a success installs the stories; an error reply or a
        thrown fetch closes the viewer. */
    method FetchUserStories(response: Response<seq<Story>>)
      modifies this
      ensures !loading && currentIndex == old(currentIndex)
      ensures response.Answer? && response.reply.Success? ==> stories == response.reply.data && closed == old(closed)
      ensures !(response.Answer? && response.reply.Success?) ==> stories == old(stories) && closed
      ensures old(currentIndex) == 0 ==> Valid()
    {
      if response.Answer? && response.reply.Success? {
        stories := response.reply.data;
      } else {
        closed := true;
      }
      loading := false;
    }

    /** `handleNext`: step forward, or close at the last story. */
    method HandleNext()
      requires Valid()
      modifies this`currentIndex, this`closed
      ensures Valid()
      ensures old(currentIndex) < |stories| - 1 ==> currentIndex == old(currentIndex) + 1 && closed == old(closed)
      ensures old(currentIndex) >= |stories| - 1 ==> currentIndex == old(currentIndex) && closed
    {
      if currentIndex < |stories| - 1 {
        currentIndex := currentIndex + 1;
      } else {
        closed := true;
      }
    }

    /** `handlePrev`: step back, or close at the first story. */
    method HandlePrev()
      requires Valid()
      modifies this`currentIndex, this`closed
      ensures Valid()
      ensures old(currentIndex) > 0 ==> currentIndex == old(currentIndex) - 1 && closed == old(closed)
      ensures old(currentIndex) <= 0 ==> currentIndex == old(currentIndex) && closed
    {
      if currentIndex > 0 {
        currentIndex := currentIndex - 1;
      } else {
        closed := true;
      }
    }

    /** The render function: nothing for an empty list, otherwise the story at the
        index with its progress bars. */
    function Render(): (s: Screen)
      requires Valid()
      reads this
      ensures loading <==> s == Spinner
      ensures !loading && stories == [] <==> s == Nothing
      ensures s.Showing? ==> 0 <= currentIndex < |stories| && s.story == stories[currentIndex]
                             && s.bars == Bars(|stories|, currentIndex)
    {
      if loading then Spinner
      else if stories == [] then Nothing
      else Showing(stories[currentIndex], Bars(|stories|, currentIndex))
    }
  }
}
