/** Which declared language reads files of a contested extension. */
module Routing {
  import opened Bytes
  import opened Ordering

  type Language = Text
  type Extension = Text

  /** Claimants of an ambiguous extension, the winner first. */
  function Precedence(ext: Extension): seq<Language> {
    if ext == Ascii(".h") then [Ascii("cpp"), Ascii("c")] else []
  }

  /** The declared languages that claim an extension. */
  function Claims(declared: set<Language>, extensionsFor: Language -> seq<Extension>, ext: Extension): set<Language> {
    set l | l in declared && ext in extensionsFor(l)
  }

  /** The first claimant in precedence order, or the least one when precedence names none. */
  ghost predicate IsWinner(ext: Extension, claims: set<Language>, l: Language) {
    var order := Precedence(ext);
    && l in claims
    && ((exists k :: 0 <= k < |order| && order[k] == l && forall j :: 0 <= j < k ==> order[j] !in claims)
        || ((forall k :: 0 <= k < |order| ==> order[k] !in claims) && forall x :: x in claims ==> !Below(x, l)))
  }

  lemma WinnerIsUnique(ext: Extension, claims: set<Language>, l: Language, m: Language)
    requires IsWinner(ext, claims, l) && IsWinner(ext, claims, m)
    ensures l == m
  {
    BelowIsTotal(l, m);
  }

  /** Every claimed extension, and no other, goes to its winner. */
  ghost predicate IsRouting(routes: map<Extension, Language>, declared: set<Language>,
                            extensionsFor: Language -> seq<Extension>) {
    && (forall ext :: ext in routes <==> Claims(declared, extensionsFor, ext) != {})
    && (forall ext :: ext in routes ==> IsWinner(ext, Claims(declared, extensionsFor, ext), routes[ext]))
  }

  /** The table depends on the set of declared languages alone: neither their order nor
      repeats can change it. */
  lemma SameSetSameRoutes(a: map<Extension, Language>, b: map<Extension, Language>,
                          as_: seq<Language>, bs: seq<Language>, extensionsFor: Language -> seq<Extension>)
    requires IsRouting(a, Elements(as_), extensionsFor) && IsRouting(b, Elements(bs), extensionsFor)
    requires Elements(as_) == Elements(bs)
    ensures a == b
  {
    hide IsWinner, Claims;
    assert a.Keys == b.Keys;
    forall ext | ext in a ensures a[ext] == b[ext] {
      WinnerIsUnique(ext, Claims(Elements(as_), extensionsFor, ext), a[ext], b[ext]);
    }
  }

  ghost predicate FirstIsLeast(langs: seq<Language>) {
    langs != [] && forall x :: x in langs ==> !Below(x, langs[0])
  }

  /** The claimants found so far: all of `done`'s extensions, and these of `current`'s. */
  ghost predicate Collected(claimants: map<Extension, seq<Language>>, extensionsFor: Language -> seq<Extension>,
                            done: set<Language>, current: Language, exts: seq<Extension>) {
    && (forall e :: e in claimants <==> Claims(done, extensionsFor, e) + Own(current, exts, e) != {})
    && (forall e :: e in claimants ==>
          Elements(claimants[e]) == Claims(done, extensionsFor, e) + Own(current, exts, e)
          && FirstIsLeast(claimants[e]))
  }

  function Own(current: Language, exts: seq<Extension>, e: Extension): set<Language> {
    if e in exts then {current} else {}
  }

  lemma FirstStaysLeast(langs: seq<Language>, l: Language)
    requires langs != [] ==> FirstIsLeast(langs)
    requires forall x :: x in langs ==> !Below(l, x)
    ensures FirstIsLeast(langs + [l]) && Elements(langs + [l]) == Elements(langs) + {l}
  {
    BelowIsTotal(l, l);
  }

  lemma CollectOne(claimants: map<Extension, seq<Language>>, extensionsFor: Language -> seq<Extension>,
                   done: set<Language>, l: Language, exts: seq<Extension>, e: Extension)
    requires Collected(claimants, extensionsFor, done, l, exts)
    requires forall x :: x in done ==> !Below(l, x)
    ensures var langs := if e in claimants then claimants[e] else [];
            Collected(claimants[e := langs + [l]], extensionsFor, done, l, exts + [e])
  {
    hide FirstIsLeast, Claims, Elements;
    BelowIsTotal(l, l);
    var langs := if e in claimants then claimants[e] else [];
    assert Elements([]) == {} by { NoElements([]); }
    forall x | x in langs ensures !Below(l, x) {
      InElements(langs, x);
      ClaimsAreDeclared(done, extensionsFor, e);
    }
    FirstStaysLeast(langs, l);
    OwnGrows(l, exts, e);
  }

  lemma InElements(langs: seq<Language>, x: Language)
    ensures x in Elements(langs) <==> x in langs
  {
  }

  lemma ClaimsAreDeclared(done: set<Language>, extensionsFor: Language -> seq<Extension>, e: Extension)
    ensures Claims(done, extensionsFor, e) <= done
  {
  }

  lemma OwnGrows(l: Language, exts: seq<Extension>, e: Extension)
    ensures forall x :: Own(l, exts + [e], x) == Own(l, exts, x) + if x == e then {l} else {}
  {
  }

  lemma NextLanguage(claimants: map<Extension, seq<Language>>, extensionsFor: Language -> seq<Extension>,
                     done: set<Language>, l: Language, next: Language)
    requires Collected(claimants, extensionsFor, done, l, extensionsFor(l))
    ensures Collected(claimants, extensionsFor, done + {l}, next, [])
  {
    hide FirstIsLeast, Elements;
    forall e ensures Claims(done + {l}, extensionsFor, e) + Own(next, [], e)
                  == Claims(done, extensionsFor, e) + Own(l, extensionsFor(l), e)
    {
    }
  }

  /** Languages in sorted order each append themselves to the extensions they claim. */
  method CollectClaimants(sorted: seq<Language>, extensionsFor: Language -> seq<Extension>)
    returns (claimants: map<Extension, seq<Language>>)
    requires Rising(sorted)
    ensures forall e :: e in claimants <==> Claims(Elements(sorted), extensionsFor, e) != {}
    ensures forall e :: e in claimants ==>
              Elements(claimants[e]) == Claims(Elements(sorted), extensionsFor, e) && FirstIsLeast(claimants[e])
  {
    hide FirstIsLeast, Claims, Elements, Collected, Own;
    claimants := map[];
    NothingCollected(extensionsFor);
    assert sorted[..0] == [];
    var i := 0;
    while i < |sorted|
      invariant 0 <= i <= |sorted|
      invariant Collected(claimants, extensionsFor, Elements(sorted[..i]), [], [])
    {
      var l := sorted[i];
      var exts := extensionsFor(l);
      Retarget(claimants, extensionsFor, Elements(sorted[..i]), [], l);
      EarlierNotAbove(sorted, i);
      assert exts[..0] == [];
      var j := 0;
      while j < |exts|
        invariant 0 <= j <= |exts|
        invariant Collected(claimants, extensionsFor, Elements(sorted[..i]), l, exts[..j])
      {
        var e := exts[j];
        CollectOne(claimants, extensionsFor, Elements(sorted[..i]), l, exts[..j], e);
        assert exts[..j + 1] == exts[..j] + [e];
        claimants := claimants[e := (if e in claimants then claimants[e] else []) + [l]];
        j := j + 1;
      }
      assert exts[..j] == exts;
      NextLanguage(claimants, extensionsFor, Elements(sorted[..i]), l, []);
      i := i + 1;
    }
    assert sorted[..i] == sorted;
    AllCollected(claimants, extensionsFor, Elements(sorted));
  }

  lemma NothingCollected(extensionsFor: Language -> seq<Extension>)
    ensures Collected(map[], extensionsFor, Elements([]), [], [])
  {
  }

  lemma Retarget(claimants: map<Extension, seq<Language>>, extensionsFor: Language -> seq<Extension>,
                 done: set<Language>, l: Language, m: Language)
    requires Collected(claimants, extensionsFor, done, l, [])
    ensures Collected(claimants, extensionsFor, done, m, [])
  {
    hide FirstIsLeast, Elements, Claims;
    assert forall e :: Own(l, [], e) == Own(m, [], e);
  }

  lemma AllCollected(claimants: map<Extension, seq<Language>>, extensionsFor: Language -> seq<Extension>,
                     done: set<Language>)
    requires Collected(claimants, extensionsFor, done, [], [])
    ensures forall e :: e in claimants <==> Claims(done, extensionsFor, e) != {}
    ensures forall e :: e in claimants ==>
              Elements(claimants[e]) == Claims(done, extensionsFor, e) && FirstIsLeast(claimants[e])
  {
    hide FirstIsLeast, Elements, Claims;
    assert forall e :: Claims(done, extensionsFor, e) + Own([], [], e) == Claims(done, extensionsFor, e);
  }

  lemma EarlierNotAbove(sorted: seq<Language>, i: nat)
    requires Rising(sorted) && i < |sorted|
    ensures forall x :: x in Elements(sorted[..i]) ==> !Below(sorted[i], x)
    ensures Elements(sorted[..i + 1]) == Elements(sorted[..i]) + {sorted[i]}
  {
    assert sorted[..i + 1] == sorted[..i] + [sorted[i]];
    forall x | x in Elements(sorted[..i]) ensures !Below(sorted[i], x) {
      var k :| 0 <= k < i && sorted[..i][k] == x;
      assert sorted[k] == x;
    }
  }

  /** One extension's winner among its sorted claimants. */
  method ResolveExtension(ext: Extension, langs: seq<Language>) returns (winner: Language)
    requires FirstIsLeast(langs)
    ensures IsWinner(ext, Elements(langs), winner)
  {
    var order := Precedence(ext);
    if |langs| == 1 {
      OnlyOneWins(ext, langs);
      return langs[0];
    }
    var declared: set<Language> := {};
    var i := 0;
    while i < |langs|
      invariant 0 <= i <= |langs|
      invariant declared == Elements(langs[..i])
    {
      assert langs[..i + 1] == langs[..i] + [langs[i]];
      declared := declared + {langs[i]};
      i := i + 1;
    }
    assert langs[..i] == langs;
    var k := 0;
    while k < |order|
      invariant 0 <= k <= |order|
      invariant forall j :: 0 <= j < k ==> order[j] !in declared
    {
      if order[k] in declared {
        return order[k];
      }
      k := k + 1;
    }
    return langs[0];
  }

  lemma OnlyOneWins(ext: Extension, langs: seq<Language>)
    requires |langs| == 1 && FirstIsLeast(langs)
    ensures IsWinner(ext, Elements(langs), langs[0])
  {
    assert Elements(langs) == {langs[0]};
    var order := Precedence(ext);
    if |order| > 0 && order[0] != langs[0] && order[1] == langs[0] {
      assert order[0] !in Elements(langs);
    }
  }

  /** Winners found for these extensions. */
  ghost predicate Resolved(routes: map<Extension, Language>, declared: set<Language>,
                           extensionsFor: Language -> seq<Extension>, exts: set<Extension>) {
    && routes.Keys == exts
    && forall e :: e in routes ==> IsWinner(e, Claims(declared, extensionsFor, e), routes[e])
  }

  lemma ResolveOne(routes: map<Extension, Language>, declared: set<Language>,
                   extensionsFor: Language -> seq<Extension>, exts: set<Extension>, e: Extension, l: Language)
    requires Resolved(routes, declared, extensionsFor, exts)
    requires IsWinner(e, Claims(declared, extensionsFor, e), l)
    ensures Resolved(routes[e := l], declared, extensionsFor, exts + {e})
  {
    hide IsWinner, Claims;
  }

  lemma ResolvedIsRouting(routes: map<Extension, Language>, declared: set<Language>,
                          extensionsFor: Language -> seq<Extension>, exts: set<Extension>)
    requires Resolved(routes, declared, extensionsFor, exts)
    requires forall e :: e in exts <==> Claims(declared, extensionsFor, e) != {}
    ensures IsRouting(routes, declared, extensionsFor)
  {
    hide IsWinner, Claims;
  }

  lemma NothingResolved(declared: set<Language>, extensionsFor: Language -> seq<Extension>)
    ensures Resolved(map[], declared, extensionsFor, {})
  {
  }

  /** The routing table of a watch path's declared languages. */
  method RouteExtensions(languages: seq<Language>, extensionsFor: Language -> seq<Extension>)
    returns (routes: map<Extension, Language>)
    ensures IsRouting(routes, Elements(languages), extensionsFor)
  {
    hide FirstIsLeast, Claims, Elements, IsWinner, Resolved, IsRouting, Rising, Sort;
    SortRises(languages);
    ghost var declared := Elements(languages);
    var claimants := CollectClaimants(Sort(languages), extensionsFor);
    NothingResolved(declared, extensionsFor);
    ghost var all := claimants.Keys;
    routes := map[];
    var todo := claimants.Keys;
    assert all - todo == {};
    while todo != {}
      invariant todo <= all && Resolved(routes, declared, extensionsFor, all - todo)
      decreases |todo|
    {
      var e :| e in todo;
      assert e in claimants;
      var winner := ResolveExtension(e, claimants[e]);
      ResolveOne(routes, declared, extensionsFor, all - todo, e, winner);
      assert all - (todo - {e}) == all - todo + {e};
      routes := routes[e := winner];
      todo := todo - {e};
    }
    assert all - todo == all;
    ResolvedIsRouting(routes, declared, extensionsFor, all);
  }

  /** Headers are read as C++ wherever C++ claims them, and as C only where it does not. */
  lemma HeadersFollowCpp(routes: map<Extension, Language>, declared: set<Language>,
                         extensionsFor: Language -> seq<Extension>)
    requires IsRouting(routes, declared, extensionsFor)
    ensures var h, claims := Ascii(".h"), Claims(declared, extensionsFor, Ascii(".h"));
            && (Ascii("cpp") in claims ==> h in routes && routes[h] == Ascii("cpp"))
            && (Ascii("cpp") !in claims && Ascii("c") in claims ==> h in routes && routes[h] == Ascii("c"))
  {
    hide Claims;
    var h, claims := Ascii(".h"), Claims(declared, extensionsFor, Ascii(".h"));
    var order := Precedence(h);
    assert order[0] == Ascii("cpp") && order[1] == Ascii("c");
    if order[0] in claims {
      assert IsWinner(h, claims, order[0]);
      WinnerIsUnique(h, claims, routes[h], order[0]);
    } else if order[1] in claims {
      assert IsWinner(h, claims, order[1]);
      WinnerIsUnique(h, claims, routes[h], order[1]);
    }
  }
}
