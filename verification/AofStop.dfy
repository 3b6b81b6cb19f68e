/** Durability needs the feed: a SET that runs, cannot be fed, and takes the server with it. */
module AofStop {
  import opened Text
  import opened AofFormat
  import opened AofLoader
  import opened AofReplay
  import opened AofFeed
  import opened AofClock
  import opened AofSystem

  const Twice: Command := ["SET", "k", "v", "EX", "px", "EX", "10"]

  const Ten: SetFlags := NoFlags.(expiry := Seconds("10"))

  const Run: Action := DoExecute(0, Twice, Ten, 0, 0)

  lemma TwiceSets(d: Data, other: Other)
    ensures (0, "k") in Live(d, 0, Twice, Ten, 0, other)
  {
    assert Lower("SET") == "set";
  }

  lemma TwiceStops(w: World)
    ensures var s := Next(Empty, Run, w);
            && Steps(Empty, Run, s, w) && s.stopped && s.state.On? && !s.open && s.file + s.buf == ""
            && (0, "k") in s.data
  {
    ReplacedTimeStops();
    TwiceSets(map[], w.other);
    assert Lower("SET") == "set";
    hide Accepted, Conflicts, Live, Fed;
  }

  /** The key is in the dataset when the server stops, and in no log. */
  lemma StopLosesKey(w: World, tolerant: bool)
    requires Steady(w.other, w.delay)
    ensures var s := Next(Empty, Run, w); var r := Load(s.file + s.buf, w.known, tolerant);
            && GoodRun([Empty, s], [Run], w) && s.stopped && s.state.On? && !s.open
            && r.NothingToLoad? && Restored(r, w) != s.data
  {
    hide Next, Load, Started, Steady, Steps;
    TwiceStops(w);
    EmptyStarted(w);
    LoadsNothing(w.known, tolerant);
    assert StatWorks(Run);
  }
}
