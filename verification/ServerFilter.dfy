/** Which servers the list shows under the search box and the three filters. */
module ServerFilter {
  import opened Prelude
  import opened CandidateQueue

  datatype Proto = Tcp | Udp

  datatype Mode = AnyMode | Favorites | Online | Offline

  predicate MatchesServerFilter(name: string, search: string, mode: Mode, favorites: set<string>, latencies: Latencies,
                                proto: Option<Proto>, protocols: set<Proto>)
  {
    && (search != "" ==> Contains(Lower(name), Lower(search)))
    && (mode.Favorites? ==> name in favorites)
    && (mode.Online? ==> Rtt(latencies, name).Some?)
    && (mode.Offline? ==> Rtt(latencies, name).None?)
    && (proto.Some? ==> proto.value in protocols)
  }

  /** Each filter says what it says, whatever the other three are set to. */
  lemma FiltersAreIndependent(name: string, search: string, favorites: set<string>, latencies: Latencies, protocols: set<Proto>,
                              mode: Mode, proto: Proto)
    ensures var shown := MatchesServerFilter(name, search, AnyMode, favorites, latencies, None, protocols);
            && (MatchesServerFilter(name, search, Favorites, favorites, latencies, None, protocols) <==> shown && name in favorites)
            && (MatchesServerFilter(name, search, Online, favorites, latencies, None, protocols)
                <==> shown && name in latencies && latencies[name].Some?)
            && (shown <==> search == "" || Contains(Lower(name), Lower(search)))
    ensures MatchesServerFilter(name, search, mode, favorites, latencies, Some(proto), protocols)
            <==> MatchesServerFilter(name, search, mode, favorites, latencies, None, protocols) && proto in protocols
  {
    hide Contains, Lower;
  }

  /** Online and offline split whatever the other filters show. */
  lemma OnlineOrOffline(name: string, search: string, favorites: set<string>, latencies: Latencies,
                        proto: Option<Proto>, protocols: set<Proto>)
    ensures var online := MatchesServerFilter(name, search, Online, favorites, latencies, proto, protocols);
            var offline := MatchesServerFilter(name, search, Offline, favorites, latencies, proto, protocols);
            var any := MatchesServerFilter(name, search, AnyMode, favorites, latencies, proto, protocols);
            !(online && offline) && (any <==> online || offline)
  {
  }

  /** The two protocol filters together show everything exactly for a server that declares a protocol. */
  lemma SomeProtocolShows(name: string, search: string, mode: Mode, favorites: set<string>, latencies: Latencies,
                          protocols: set<Proto>)
    requires MatchesServerFilter(name, search, mode, favorites, latencies, None, protocols)
    ensures protocols != {} <==>
              (|| MatchesServerFilter(name, search, mode, favorites, latencies, Some(Tcp), protocols)
               || MatchesServerFilter(name, search, mode, favorites, latencies, Some(Udp), protocols))
  {
    if protocols != {} {
      var p :| p in protocols;
      assert p == Tcp || p == Udp;
    }
  }

  /** Shortening the search text at either end never hides a server; without one, every server passes the search. */
  lemma ShorterSearchShowsMore(name: string, before: string, part: string, after: string, mode: Mode, favorites: set<string>,
                               latencies: Latencies, proto: Option<Proto>, protocols: set<Proto>)
    requires MatchesServerFilter(name, before + part + after, mode, favorites, latencies, proto, protocols)
    ensures MatchesServerFilter(name, part, mode, favorites, latencies, proto, protocols)
  {
    var whole := before + part + after;
    if part != "" {
      var l, w := Lower(name), Lower(whole);
      var i: nat :| i <= |l| && w <= l[i..];
      var j := i + |before|;
      assert Lower(part) == w[|before|..|before| + |part|];
      assert Lower(part) <= l[j..] by {
        assert l[j..][..|part|] == l[i..][|before|..|before| + |part|];
      }
    }
  }
}
