/** Pack evidence gathered while a series episode search scrapes torrents. */
module Packs {
  import opened Replies

  /** One call of the recorder; episode and file index already turned into strings. */
  datatype Call = Call(infoHash: string, episode: Option<string>, index: Option<string>, seasonPack: bool)

  datatype Evidence = Evidence(episodes: set<string>, indexes: set<string>)

  datatype Recorded = Recorded(packBacked: set<string>, candidates: map<string, Evidence>)

  const NOTHING := Evidence({}, {})

  function Gathered(m: map<string, Evidence>, h: string): Evidence {
    if h in m then m[h] else NOTHING
  }

  function Noted(e: Evidence, call: Call): Evidence {
    Evidence(e.episodes + (if call.episode.Some? then {call.episode.value} else {}),
             e.indexes + (if call.index.Some? then {call.index.value} else {}))
  }

  /** `searching` is whether this is a series search for one episode. */
  function Record(searching: bool, r: Recorded, call: Call): Recorded {
    if !searching then r
    else if call.seasonPack then r.(packBacked := r.packBacked + {call.infoHash})
    else
      var e := Noted(Gathered(r.candidates, call.infoHash), call);
      Recorded(if |e.episodes| > 1 || |e.indexes| > 1 then r.packBacked + {call.infoHash} else r.packBacked,
               r.candidates[call.infoHash := e])
  }

  function After(searching: bool, calls: seq<Call>): Recorded {
    if calls == [] then Recorded({}, map[])
    else Record(searching, After(searching, calls[..|calls| - 1]), calls[|calls| - 1])
  }

  class Orchestrator {
    const searching: bool
    var packBacked: set<string>
    var candidates: map<string, Evidence>

    constructor (mediaType: string, searchEpisode: Option<int>)
      ensures searching == (mediaType == "series" && searchEpisode.Some?)
      ensures Recorded(packBacked, candidates) == After(searching, [])
    {
      searching := mediaType == "series" && searchEpisode.Some?;
      packBacked, candidates := {}, map[];
    }

    method RecordPackBackedCandidate(call: Call)
      modifies this
      ensures Recorded(packBacked, candidates) == Record(searching, old(Recorded(packBacked, candidates)), call)
    {
      if !searching {
        return;
      }
      if call.seasonPack {
        packBacked := packBacked + {call.infoHash};
        return;
      }
      var e := if call.infoHash in candidates then candidates[call.infoHash] else NOTHING;
      if call.episode.Some? {
        e := e.(episodes := e.episodes + {call.episode.value});
      }
      if call.index.Some? {
        e := e.(indexes := e.indexes + {call.index.value});
      }
      candidates := candidates[call.infoHash := e];
      if |e.episodes| > 1 || |e.indexes| > 1 {
        packBacked := packBacked + {call.infoHash};
      }
    }
  }

  // ----- What the calls say about a hash, in no order -----

  function EpisodesOf(calls: set<Call>, h: string): set<string> {
    set c | c in calls && c.infoHash == h && !c.seasonPack && c.episode.Some? :: c.episode.value
  }

  function IndexesOf(calls: set<Call>, h: string): set<string> {
    set c | c in calls && c.infoHash == h && !c.seasonPack && c.index.Some? :: c.index.value
  }

  predicate IsPack(calls: set<Call>, h: string) {
    || (exists c <- calls :: c.infoHash == h && c.seasonPack)
    || |EpisodesOf(calls, h)| > 1 || |IndexesOf(calls, h)| > 1
  }

  function AsSet(calls: seq<Call>): set<Call> {
    set c | c in calls
  }

  lemma OneMoreCall(front: set<Call>, c: Call, h: string)
    ensures var calls := front + {c};
            if c.infoHash == h && !c.seasonPack
            then Evidence(EpisodesOf(calls, h), IndexesOf(calls, h)) ==
                 Noted(Evidence(EpisodesOf(front, h), IndexesOf(front, h)), c)
            else EpisodesOf(calls, h) == EpisodesOf(front, h) && IndexesOf(calls, h) == IndexesOf(front, h)
  {
    var calls := front + {c};
    assert c in calls;
    if c.infoHash == h && !c.seasonPack {
      var e := Noted(Evidence(EpisodesOf(front, h), IndexesOf(front, h)), c);
      forall x ensures x in EpisodesOf(calls, h) <==> x in e.episodes {
      }
      forall x ensures x in IndexesOf(calls, h) <==> x in e.indexes {
      }
      assert EpisodesOf(calls, h) == e.episodes && IndexesOf(calls, h) == e.indexes;
    } else {
      assert EpisodesOf(calls, h) == EpisodesOf(front, h);
      assert IndexesOf(calls, h) == IndexesOf(front, h);
    }
  }

  lemma {:induction false} GatheredIsAllEvidence(calls: seq<Call>, h: string)
    ensures Gathered(After(true, calls).candidates, h) == Evidence(EpisodesOf(AsSet(calls), h), IndexesOf(AsSet(calls), h))
  {
    if calls != [] {
      var front, c := calls[..|calls| - 1], calls[|calls| - 1];
      GatheredIsAllEvidence(front, h);
      OneMoreCall(AsSet(front), c, h);
      AsSetOfFront(calls);
      hide EpisodesOf, IndexesOf, AsSet;
    }
  }

  lemma GrownSet(a: set<string>, b: set<string>)
    requires a <= b && |a| > 1
    ensures |b| > 1
  {
    assert b == a + (b - a);
  }

  lemma IsPackWithOneMore(front: set<Call>, c: Call, h: string)
    ensures IsPack(front + {c}, h) <==>
              || IsPack(front, h) || (c.infoHash == h && c.seasonPack)
              || (c.infoHash == h && !c.seasonPack
                  && (|EpisodesOf(front + {c}, h)| > 1 || |IndexesOf(front + {c}, h)| > 1))
  {
    var calls := front + {c};
    assert (exists d <- calls :: d.infoHash == h && d.seasonPack) <==>
           (exists d <- front :: d.infoHash == h && d.seasonPack) || (c.infoHash == h && c.seasonPack) by {
      assert c in calls;
    }
    OneMoreCall(front, c, h);
    assert EpisodesOf(front, h) <= EpisodesOf(calls, h) && IndexesOf(front, h) <= IndexesOf(calls, h);
    hide EpisodesOf, IndexesOf, Noted;
    if |EpisodesOf(front, h)| > 1 {
      GrownSet(EpisodesOf(front, h), EpisodesOf(calls, h));
    }
    if |IndexesOf(front, h)| > 1 {
      GrownSet(IndexesOf(front, h), IndexesOf(calls, h));
    }
  }

  lemma AsSetOfFront(calls: seq<Call>)
    requires calls != []
    ensures AsSet(calls) == AsSet(calls[..|calls| - 1]) + {calls[|calls| - 1]}
  {
    assert calls == calls[..|calls| - 1] + [calls[|calls| - 1]];
  }

  lemma RecordMarks(r: Recorded, c: Call, h: string)
    ensures var after := Record(true, r, c);
            h in after.packBacked <==>
              || h in r.packBacked || (c.infoHash == h && c.seasonPack)
              || (c.infoHash == h && !c.seasonPack
                  && (|Gathered(after.candidates, h).episodes| > 1 || |Gathered(after.candidates, h).indexes| > 1))
  {
  }

  /** A hash is marked exactly when some call flagged it as a season pack, or its other
      calls carry more than one distinct episode or more than one distinct file index. */
  lemma {:induction false} PackBackedExactlyWhen(calls: seq<Call>, h: string)
    ensures h in After(true, calls).packBacked <==> IsPack(AsSet(calls), h)
  {
    if calls == [] {
      assert EpisodesOf({}, h) == {} && IndexesOf({}, h) == {};
    } else {
      var front, c := calls[..|calls| - 1], calls[|calls| - 1];
      assert After(true, calls) == Record(true, After(true, front), c);
      hide EpisodesOf, IndexesOf, IsPack, AsSet, Record, After, Gathered;
      PackBackedExactlyWhen(front, h);
      GatheredIsAllEvidence(calls, h);
      IsPackWithOneMore(AsSet(front), c, h);
      RecordMarks(After(true, front), c, h);
      AsSetOfFront(calls);
    }
  }

  /** Outside a series episode search nothing is ever marked. */
  lemma {:induction false} NothingMarkedElsewhere(calls: seq<Call>)
    ensures After(false, calls) == Recorded({}, map[])
  {
    if calls != [] {
      NothingMarkedElsewhere(calls[..|calls| - 1]);
    }
  }

  /** Neither the order of the calls nor repeating one changes which hashes are marked. */
  lemma OrderDoesNotMatter(first: seq<Call>, second: seq<Call>)
    requires AsSet(first) == AsSet(second)
    ensures After(true, first).packBacked == After(true, second).packBacked
  {
    hide *;
    forall h ensures h in After(true, first).packBacked <==> h in After(true, second).packBacked {
      PackBackedExactlyWhen(first, h);
      PackBackedExactlyWhen(second, h);
    }
  }
}
