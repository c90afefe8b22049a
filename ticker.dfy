/** The ticker set-up: every `.ticker` or `.hero-ticker` that holds a `.ticker-track` gets
    the track's content written out twice, once, so that a -50% translation loops without a
    seam. A `data-duped` marker on the track guards against doing it again. */
module Ticker {
  import opened JsString

  datatype Option<T> = None | Some(value: T)

  /** `track.dataset.duped` read as a condition: a missing attribute and the empty string
      are both false in JavaScript. */
  predicate Truthy(v: Option<string>): (truthy: bool)
    ensures !truthy <==> v == None || v == Some("")
  {
    v.Some? && v.value != ""
  }

  /** A track: its markup (innerHTML) and its `data-duped` attribute, if any. */
  datatype TrackView = TrackView(content: string, duped: Option<string>)

  /** The content written back: the trimmed markup twice over. Each half is the trimmed
      original, so the strip looks the same after it has moved by half its width. */
  function Doubled(content: string): (r: string)
    ensures |r| == 2 * |Trim(content)|
    ensures r[..|Trim(content)|] == Trim(content) && r[|Trim(content)|..] == Trim(content)
  {
    var c := Trim(content);
    var r := c + c;
    assert r[..|c|] == c && r[|c|..] == c;
    r
  }

  /** One pass of the guarded duplication over a track. */
  function DupePass(t: TrackView): (r: TrackView)
    ensures Truthy(r.duped)
  {
    if Truthy(t.duped) then t
    else TrackView(Doubled(t.content), Some("1"))
  }

  /** The first pass over an unmarked track doubles its trimmed content and marks it. */
  lemma FirstPassDoubles(t: TrackView)
    requires !Truthy(t.duped)
    ensures DupePass(t).content == Trim(t.content) + Trim(t.content)
    ensures DupePass(t).duped == Some("1")
  {
  }

  /** Duplication is idempotent: a second pass changes nothing. */
  lemma DupePassIdempotent(t: TrackView)
    ensures DupePass(DupePass(t)) == DupePass(t)
  {
  }

  /** Any number of passes do what one pass does. */
  lemma {:induction false} RepeatedPassesAreOne(t: TrackView, n: nat)
    requires n >= 1
    ensures Passes(t, n) == DupePass(t)
  {
    if n > 1 {
      RepeatedPassesAreOne(t, n - 1);
      DupePassIdempotent(t);
    }
  }

  /** `n` passes of the duplication, one after another. */
  function Passes(t: TrackView, n: nat): TrackView {
    if n == 0 then t else DupePass(Passes(t, n - 1))
  }

  /** A `.ticker-track` element, whose markup and marker the set-up rewrites in place. */
  class Track {
    var content: string
    var duped: Option<string>

    function View(): TrackView
      reads this
    {
      TrackView(content, duped)
    }

    constructor (content: string, duped: Option<string>)
      ensures View() == TrackView(content, duped)
    {
      this.content := content;
      this.duped := duped;
    }

    /** The guarded body of the loop for one track. */
    method Duplicate()
      modifies this
      ensures View() == DupePass(old(View()))
    {
      if !Truthy(duped) {
        content := Doubled(content);
        duped := Some("1");
      }
    }
  }

  /** The set-up loop over the tickers in document order; `null` stands for a ticker without
      a `.ticker-track`, which is skipped. Two tickers may find the same track; the marker
      makes the second visit a no-op, so every track ends up duplicated exactly once. */
  method DuplicateTracks(tickers: seq<Track?>)
    modifies set t: Track | t in tickers
    ensures forall t: Track :: t in tickers ==> t.View() == DupePass(old(t.View()))
  {
    ghost var done: set<Track> := {};
    var i := 0;
    while i < |tickers|
      invariant i <= |tickers|
      invariant forall j :: 0 <= j < i && tickers[j] != null ==> tickers[j] in done
      invariant forall t: Track :: t in tickers ==>
        t.View() == if t in done then DupePass(old(t.View())) else old(t.View())
    {
      var track := tickers[i];
      if track != null {
        ghost var original := old(track.View());
        assert track.View() == if track in done then DupePass(original) else original;
        DupePassIdempotent(original);
        track.Duplicate();
        assert track.View() == DupePass(original);
        done := done + {track};
      }
      i := i + 1;
    }
  }
}
