/** How the auto-claim service finds redeemable positions (`discover_redeemable_jobs`): pages of each address, filtered,
    the first position of every owner and condition kept. Amounts are reals; a text that is no number is no amount. */
module Discovery {
  import opened Common
  import opened ClaimJobs
  import opened ClaimPlan

  datatype Raw = Raw(proxyWallet: Option<string>, condition: Option<string>, marketSlug: Option<string>,
                     slug: Option<string>, currentValue: Option<real>, curPrice: Option<real>, redeemable: Option<bool>,
                     size: Option<real>, balance: Option<real>)

  /** The normal form of an address or a condition id, as the wallet library parses it. */
  datatype Parsers = Parsers(address: string -> Option<string>, condition: string -> Option<string>,
                             trim: string -> string)

  type Positive = n: nat | n > 0 witness 1

  datatype Search = Search(pageSize: Positive, maxPages: Positive, minClaim: real, parsers: Parsers)

  /** What an address answers at an offset; no answer is a request that failed. */
  type Endpoint = (string, nat) -> Option<seq<Raw>>

  /** A position to be claimed, with its market. */
  type Candidate = (Position, Option<string>)

  // Which positions count

  function OrElse<T>(x: Option<T>, y: Option<T>): Option<T> {
    if x.Some? then x else y
  }

  function SizeOf(r: Raw): real {
    var size := OrElse(r.size, r.balance);
    if size.Some? then size.value else 0.0
  }

  function ValueOf(r: Raw): real {
    if r.currentValue.Some? && r.currentValue.value > 0.0 then r.currentValue.value
    else if SizeOf(r) <= 0.0 then 0.0
    else if r.curPrice.Some? && r.curPrice.value > 0.0 then r.curPrice.value * SizeOf(r)
    else SizeOf(r)
  }

  /** Worth claiming: not known to be unredeemable, and of positive size and sufficient positive value. */
  predicate Worthwhile(r: Raw, s: Search) {
    && r.redeemable != Some(false) && SizeOf(r) > 0.0 && ValueOf(r) > 0.0
    && (s.minClaim <= 0.0 || ValueOf(r) >= s.minClaim)
  }

  function OwnerOf(r: Raw, address: string, p: Parsers): Option<string> {
    if r.proxyWallet.Some? && p.trim(r.proxyWallet.value) != "" then p.address(p.trim(r.proxyWallet.value))
    else p.address(address)
  }

  /** What a row of the answer stands for, if anything. */
  function Admitted(r: Raw, address: string, s: Search): Option<Candidate> {
    if !Worthwhile(r, s) || r.condition.None? then None
    else
      var condition, owner := s.parsers.condition(r.condition.value), OwnerOf(r, address, s.parsers);
      if condition.None? || owner.None? then None
      else Some((Position(owner.value, condition.value), OrElse(r.marketSlug, r.slug)))
  }

  ghost predicate IsSize(r: Raw, size: real) {
    r.size == Some(size) || (r.size == None && r.balance == Some(size))
  }

  ghost function ByPrice(r: Raw, size: real): real {
    match r.curPrice
    case Some(price) => if price <= 0.0 then size else price * size
    case None => size
  }

  /** The row is worth claiming: it is of positive size, not known to be unredeemable, and its value is not below the
      limit. Its size is its balance if it gives none; its value is its current value, else its size at the current
      price, else its size, whichever is positive first. */
  ghost predicate WorthClaiming(r: Raw, minClaim: real) {
    exists size :: IsSize(r, size) && size > 0.0 && r.redeemable != Some(false) &&
      match r.currentValue
      case Some(value) => if value > 0.0 then value >= minClaim else ByPrice(r, size) >= minClaim
      case None => ByPrice(r, size) >= minClaim
  }

  /** The row names this condition, and this owner: its proxy wallet, or the address asked for if that is blank. */
  ghost predicate Names(r: Raw, address: string, parsers: Parsers, p: Position) {
    && r.condition.Some? && parsers.condition(r.condition.value) == Some(p.condition)
    && match r.proxyWallet
       case Some(wallet) => parsers.address(if parsers.trim(wallet) == "" then address else parsers.trim(wallet))
                            == Some(p.owner)
       case None => parsers.address(address) == Some(p.owner)
  }

  lemma PositiveValue(price: real, size: real)
    requires price > 0.0 && size > 0.0
    ensures price * size > 0.0
  {
  }

  lemma WorthwhileIff(r: Raw, s: Search)
    ensures Worthwhile(r, s) <==> WorthClaiming(r, s.minClaim)
  {
    if SizeOf(r) > 0.0 {
      assert IsSize(r, SizeOf(r));
      if r.curPrice.Some? && r.curPrice.value > 0.0 { PositiveValue(r.curPrice.value, SizeOf(r)); }
    }
  }

  /** Exactly which position and market a row of the answer stands for. */
  lemma AdmittedIff(r: Raw, address: string, s: Search, c: Candidate)
    ensures Admitted(r, address, s) == Some(c) <==>
      && WorthClaiming(r, s.minClaim) && Names(r, address, s.parsers, c.0)
      && c.1 == if r.marketSlug == None then r.slug else r.marketSlug
  {
    WorthwhileIff(r, s);
  }

  function Candidates(rows: seq<Raw>, address: string, s: Search): seq<Candidate> {
    if rows == [] then []
    else
      var front, last := Candidates(rows[..|rows| - 1], address, s), Admitted(rows[|rows| - 1], address, s);
      if last.Some? then front + [last.value] else front
  }

  lemma {:induction false} CandidatesOf(rows: seq<Raw>, address: string, s: Search, c: Candidate)
    ensures c in Candidates(rows, address, s) <==>
      exists i :: 0 <= i < |rows| && Admitted(rows[i], address, s) == Some(c)
  {
    if rows != [] {
      var n := |rows| - 1;
      CandidatesOf(rows[..n], address, s, c);
      assert forall i :: 0 <= i < n ==> rows[..n][i] == rows[i];
      assert Admitted(rows[n], address, s) == Some(c) ==> c in Candidates(rows, address, s);
    }
  }

  // Which of them are kept

  ghost predicate IsFirst(cs: seq<Candidate>, i: int) {
    0 <= i < |cs| && forall j :: 0 <= j < i ==> cs[j].0 != cs[i].0
  }

  /** Every position of the candidates, with the market that came first. */
  ghost predicate FirstWins(found: Found, cs: seq<Candidate>) {
    && (forall i :: 0 <= i < |cs| ==> cs[i].0 in found)
    && (forall p :: p in found ==> exists i :: IsFirst(cs, i) && cs[i].0 == p && cs[i].1 == found[p])
  }

  lemma FirstIsFound(found: Found, cs: seq<Candidate>, i: int)
    requires FirstWins(found, cs) && IsFirst(cs, i)
    ensures found[cs[i].0] == cs[i].1
  {
    var j :| IsFirst(cs, j) && cs[j].0 == cs[i].0 && cs[j].1 == found[cs[i].0];
    assert !(i < j) && !(j < i);
  }

  /** Corollary of `FirstWins`: the candidates and their order determine what is found. */
  lemma FoundIsUnique(a: Found, b: Found, cs: seq<Candidate>)
    requires FirstWins(a, cs) && FirstWins(b, cs)
    ensures a == b
  {
    forall p | p in a ensures p in b && b[p] == a[p] {
      var i :| IsFirst(cs, i) && cs[i].0 == p && cs[i].1 == a[p];
      FirstIsFound(b, cs, i);
    }
    forall p | p in b ensures p in a {
      var i :| IsFirst(cs, i) && cs[i].0 == p && cs[i].1 == b[p];
    }
  }

  lemma OneMore(found: Found, cs: seq<Candidate>, c: Candidate)
    requires FirstWins(found, cs)
    ensures FirstWins(if c.0 in found then found else found[c.0 := c.1], cs + [c])
  {
    var next, all := if c.0 in found then found else found[c.0 := c.1], cs + [c];
    forall p | p in next ensures exists i :: IsFirst(all, i) && all[i].0 == p && all[i].1 == next[p] {
      if p in found {
        var i :| IsFirst(cs, i) && cs[i].0 == p && cs[i].1 == found[p];
        assert IsFirst(all, i);
      } else {
        assert IsFirst(all, |cs|);
      }
    }
  }

  /** Takes in one page. */
  method TakePage(s: Search, address: string, rows: seq<Raw>, found: Found, ghost cs: seq<Candidate>)
      returns (next: Found)
    requires FirstWins(found, cs)
    ensures FirstWins(next, cs + Candidates(rows, address, s))
  {
    next := found;
    assert cs + Candidates(rows[..0], address, s) == cs;
    for i := 0 to |rows|
      invariant FirstWins(next, cs + Candidates(rows[..i], address, s))
    {
      ghost var before := Candidates(rows[..i], address, s);
      assert rows[..i + 1][..i] == rows[..i];
      var c := Admitted(rows[i], address, s);
      if c.Some? {
        OneMore(next, cs + before, c.value);
        assert (cs + before) + [c.value] == cs + (before + [c.value]);
        if c.value.0 !in next { next := next[c.value.0 := c.value.1]; }
      }
    }
    assert rows[..|rows|] == rows;
  }

  // Pages

  /** The rows of an address from a page on: an empty or a short page is the last one. */
  function PagesFrom(s: Search, address: string, fetch: Endpoint, page: nat): Option<seq<Raw>>
    decreases s.maxPages - page
  {
    if page >= s.maxPages then Some([])
    else
      var rows := fetch(address, page * s.pageSize);
      if rows.None? || |rows.value| < s.pageSize then rows
      else
        var rest := PagesFrom(s, address, fetch, page + 1);
        if rest.None? then None else Some(rows.value + rest.value)
  }

  lemma {:induction false} CandidatesConcat(a: seq<Raw>, b: seq<Raw>, address: string, s: Search)
    ensures Candidates(a + b, address, s) == Candidates(a, address, s) + Candidates(b, address, s)
  {
    if b == [] {
      assert a + b == a;
    } else {
      var n := |b| - 1;
      assert (a + b)[..|a + b| - 1] == a + b[..n];
      CandidatesConcat(a, b[..n], address, s);
    }
  }

  /** The rows read so far, and whether there are more. */
  ghost predicate HaveRead(s: Search, address: string, fetch: Endpoint, page: nat, taken: seq<Raw>, isLast: bool) {
    var all, rest := PagesFrom(s, address, fetch, 0), PagesFrom(s, address, fetch, page);
    if isLast then all == Some(taken)
    else (all.Some? <==> rest.Some?) && (rest.Some? ==> all == Some(taken + rest.value))
  }

  lemma NothingRead(s: Search, address: string, fetch: Endpoint)
    ensures HaveRead(s, address, fetch, 0, [], false)
  {
    var all := PagesFrom(s, address, fetch, 0);
    if all.Some? { assert [] + all.value == all.value; }
  }

  lemma ReadPage(s: Search, address: string, fetch: Endpoint, page: nat, taken: seq<Raw>, rows: seq<Raw>)
    requires page < s.maxPages && HaveRead(s, address, fetch, page, taken, false)
    requires fetch(address, page * s.pageSize) == Some(rows)
    ensures
      var isLast := |rows| < s.pageSize;
      HaveRead(s, address, fetch, if isLast then page else page + 1, taken + rows, isLast)
  {
    var rest := PagesFrom(s, address, fetch, page + 1);
    if rest.Some? { assert taken + (rows + rest.value) == (taken + rows) + rest.value; }
  }

  /** Takes in the next page of an address. */
  method TakeNext(s: Search, address: string, rows: seq<Raw>, found: Found, ghost cs: seq<Candidate>,
                  ghost taken: seq<Raw>)
      returns (next: Found)
    requires FirstWins(found, cs + Candidates(taken, address, s))
    ensures FirstWins(next, cs + Candidates(taken + rows, address, s))
  {
    CandidatesConcat(taken, rows, address, s);
    ghost var before, more := Candidates(taken, address, s), Candidates(rows, address, s);
    assert (cs + before) + more == cs + (before + more);
    next := TakePage(s, address, rows, found, cs + before);
  }

  lemma AllRead(s: Search, address: string, fetch: Endpoint, page: nat, taken: seq<Raw>, isLast: bool)
    requires HaveRead(s, address, fetch, page, taken, isLast) && (isLast || page >= s.maxPages)
    ensures PagesFrom(s, address, fetch, 0) == Some(taken)
  {
    assert taken + [] == taken;
  }

  method TakeAddress(s: Search, address: string, fetch: Endpoint, found: Found, ghost cs: seq<Candidate>)
      returns (r: Option<Found>)
    requires FirstWins(found, cs)
    ensures r.Some? <==> PagesFrom(s, address, fetch, 0).Some?
    ensures r.Some? ==>
      FirstWins(r.value, cs + Candidates(PagesFrom(s, address, fetch, 0).value, address, s))
  {
    var next := found;
    ghost var taken, isLast := [], false;
    var page := 0;
    assert cs + Candidates(taken, address, s) == cs;
    NothingRead(s, address, fetch);
    while page < s.maxPages
      invariant page <= s.maxPages && !isLast && FirstWins(next, cs + Candidates(taken, address, s))
      invariant HaveRead(s, address, fetch, page, taken, false)
    {
      var rows := fetch(address, page * s.pageSize);
      if rows.None? { return None; }
      ReadPage(s, address, fetch, page, taken, rows.value);
      isLast := |rows.value| < s.pageSize;
      if |rows.value| == 0 {
        assert taken + rows.value == taken;
        break;
      }
      next := TakeNext(s, address, rows.value, next, cs, taken);
      taken := taken + rows.value;
      if |rows.value| < s.pageSize { break; }
      page := page + 1;
    }
    AllRead(s, address, fetch, page, taken, isLast);
    r := Some(next);
  }

  // Addresses

  /** The rows of all addresses, if every request succeeded. */
  function AllCandidates(s: Search, addresses: seq<string>, fetch: Endpoint): Option<seq<Candidate>> {
    if addresses == [] then Some([])
    else
      var n := |addresses| - 1;
      var front, last := AllCandidates(s, addresses[..n], fetch), PagesFrom(s, addresses[n], fetch, 0);
      if front.None? || last.None? then None
      else Some(front.value + Candidates(last.value, addresses[n], s))
  }

  lemma {:induction false} PrefixFails(s: Search, addresses: seq<string>, fetch: Endpoint, i: nat)
    requires i <= |addresses| && AllCandidates(s, addresses[..i], fetch).None?
    ensures AllCandidates(s, addresses, fetch).None?
    decreases |addresses|
  {
    if i == |addresses| {
      assert addresses[..i] == addresses;
    } else {
      var n := |addresses| - 1;
      assert addresses[..n][..i] == addresses[..i];
      PrefixFails(s, addresses[..n], fetch, i);
    }
  }

  /** All positions of all addresses, or nothing when one request fails. */
  method FindPositions(s: Search, addresses: seq<string>, fetch: Endpoint) returns (r: Option<Found>)
    ensures r.Some? <==> AllCandidates(s, addresses, fetch).Some?
    ensures r.Some? ==> FirstWins(r.value, AllCandidates(s, addresses, fetch).value)
  {
    var found: Found := map[];
    for i := 0 to |addresses|
      invariant AllCandidates(s, addresses[..i], fetch).Some?
      invariant FirstWins(found, AllCandidates(s, addresses[..i], fetch).value)
    {
      assert addresses[..i + 1][..i] == addresses[..i];
      var next := TakeAddress(s, addresses[i], fetch, found, AllCandidates(s, addresses[..i], fetch).value);
      if next.None? {
        PrefixFails(s, addresses, fetch, i + 1);
        return None;
      }
      found := next.value;
    }
    assert addresses[..|addresses|] == addresses;
    return Some(found);
  }

  // What is found of what there is

  /** The endpoint answers with windows of one list per address. */
  ghost predicate Serves(fetch: Endpoint, lists: string -> seq<Raw>, s: Search) {
    forall address: string, offset: nat :: fetch(address, offset) ==
      Some(if offset <= |lists(address)|
           then lists(address)[offset..Min(|lists(address)|, offset + s.pageSize)] else [])
  }

  /** How much of a list the pages reach. */
  function Reach(s: Search): nat {
    s.maxPages * s.pageSize
  }

  lemma {:induction false} PageFits(page: nat, pages: nat, size: nat)
    requires page < pages
    ensures (page + 1) * size == page * size + size <= pages * size
  {
    if page + 1 < pages {
      PageFits(page, pages - 1, size);
      assert pages * size == (pages - 1) * size + size;
    }
  }

  lemma Windows<T>(list: seq<T>, i: nat, j: nat, k: nat)
    requires i <= j <= k <= |list|
    ensures list[i..j] + list[j..k] == list[i..k]
  {
  }

  lemma PageReadsList(s: Search, address: string, fetch: Endpoint, list: seq<Raw>, page: nat, at: nat, reach: nat)
    requires page < s.maxPages && at == page * s.pageSize && at + s.pageSize <= reach && at <= |list|
    requires fetch(address, at) == Some(list[at..Min(|list|, at + s.pageSize)])
    requires at + s.pageSize <= |list| ==>
      PagesFrom(s, address, fetch, page + 1) == Some(list[at + s.pageSize..Min(|list|, reach)])
    ensures PagesFrom(s, address, fetch, page) == Some(list[at..Min(|list|, reach)])
  {
    if at + s.pageSize <= |list| { Windows(list, at, at + s.pageSize, Min(|list|, reach)); }
  }

  lemma {:induction false} PagesReadList(s: Search, address: string, fetch: Endpoint, lists: string -> seq<Raw>,
                                         page: nat, at: nat)
    requires Serves(fetch, lists, s) && page <= s.maxPages && at == page * s.pageSize <= |lists(address)|
    requires at <= Reach(s)
    ensures PagesFrom(s, address, fetch, page) == Some(lists(address)[at..Min(|lists(address)|, Reach(s))])
    decreases s.maxPages - page
  {
    var list := lists(address);
    if page < s.maxPages {
      PageFits(page, s.maxPages, s.pageSize);
      if at + s.pageSize <= |list| { PagesReadList(s, address, fetch, lists, page + 1, at + s.pageSize); }
      PageReadsList(s, address, fetch, list, page, at, Reach(s));
    } else {
      assert PagesFrom(s, address, fetch, page) == Some([]);
      assert list[at..Min(|list|, at)] == [];
    }
  }

  /** The row is within reach and stands for the position. */
  ghost predicate Listed(s: Search, address: string, lists: string -> seq<Raw>, i: nat, p: Position) {
    && i < |lists(address)| && i < Reach(s)
    && WorthClaiming(lists(address)[i], s.minClaim) && Names(lists(address)[i], address, s.parsers, p)
  }

  ghost predicate HasPosition(cs: seq<Candidate>, p: Position) {
    exists c :: c in cs && c.0 == p
  }

  lemma ListedIfCandidate(s: Search, address: string, lists: string -> seq<Raw>, rows: seq<Raw>, p: Position)
    requires rows <= lists(address) && |rows| <= Reach(s) && HasPosition(Candidates(rows, address, s), p)
    ensures exists i :: Listed(s, address, lists, i, p)
  {
    var c :| c in Candidates(rows, address, s) && c.0 == p;
    CandidatesOf(rows, address, s, c);
    var i :| 0 <= i < |rows| && Admitted(rows[i], address, s) == Some(c);
    AdmittedIff(rows[i], address, s, c);
    assert Listed(s, address, lists, i, p);
  }

  lemma CandidateIfListed(s: Search, address: string, lists: string -> seq<Raw>, rows: seq<Raw>, i: nat, p: Position)
    requires rows <= lists(address) && i < |rows| && Listed(s, address, lists, i, p)
    ensures HasPosition(Candidates(rows, address, s), p)
  {
    var c := (p, if rows[i].marketSlug == None then rows[i].slug else rows[i].marketSlug);
    AdmittedIff(rows[i], address, s, c);
    CandidatesOf(rows, address, s, c);
  }

  lemma AddressIsListed(s: Search, address: string, fetch: Endpoint, lists: string -> seq<Raw>, p: Position)
    requires Serves(fetch, lists, s)
    ensures PagesFrom(s, address, fetch, 0).Some?
    ensures
      HasPosition(Candidates(PagesFrom(s, address, fetch, 0).value, address, s), p) <==>
      exists i :: Listed(s, address, lists, i, p)
  {
    PagesReadList(s, address, fetch, lists, 0, 0);
    var rows := PagesFrom(s, address, fetch, 0).value;
    assert rows == lists(address)[..Min(|lists(address)|, Reach(s))];
    if HasPosition(Candidates(rows, address, s), p) { ListedIfCandidate(s, address, lists, rows, p); }
    if i :| Listed(s, address, lists, i, p) { CandidateIfListed(s, address, lists, rows, i, p); }
  }

  ghost predicate ListedSomewhere(s: Search, addresses: seq<string>, lists: string -> seq<Raw>, p: Position) {
    exists address, i :: address in addresses && Listed(s, address, lists, i, p)
  }

  lemma MorePositions(cs: seq<Candidate>, more: seq<Candidate>, p: Position)
    ensures HasPosition(cs + more, p) <==> HasPosition(cs, p) || HasPosition(more, p)
  {
    assert forall c :: c in cs + more <==> c in cs || c in more;
  }

  lemma LastAddress(s: Search, addresses: seq<string>, lists: string -> seq<Raw>, p: Position)
    requires addresses != []
    ensures
      var n := |addresses| - 1;
      ListedSomewhere(s, addresses, lists, p) <==>
      ListedSomewhere(s, addresses[..n], lists, p) || exists i :: Listed(s, addresses[n], lists, i, p)
  {
    assert forall a :: a in addresses <==> a in addresses[..|addresses| - 1] || a == addresses[|addresses| - 1];
  }

  lemma {:induction false} CandidatesAreListed(s: Search, addresses: seq<string>, fetch: Endpoint,
                                               lists: string -> seq<Raw>, p: Position)
    requires Serves(fetch, lists, s)
    ensures AllCandidates(s, addresses, fetch).Some?
    ensures HasPosition(AllCandidates(s, addresses, fetch).value, p) <==> ListedSomewhere(s, addresses, lists, p)
  {
    if addresses != [] {
      var n := |addresses| - 1;
      CandidatesAreListed(s, addresses[..n], fetch, lists, p);
      AddressIsListed(s, addresses[n], fetch, lists, p);
      var front, last := AllCandidates(s, addresses[..n], fetch).value, PagesFrom(s, addresses[n], fetch, 0).value;
      MorePositions(front, Candidates(last, addresses[n], s), p);
      LastAddress(s, addresses, lists, p);
    }
  }

  /** What is found of endpoints that answer with windows of a list: exactly the positions worth claiming among the
      first `maxPages * pageSize` rows of each address. */
  lemma FoundIffListed(s: Search, addresses: seq<string>, fetch: Endpoint, lists: string -> seq<Raw>, found: Found,
                       p: Position)
    requires Serves(fetch, lists, s)
    requires AllCandidates(s, addresses, fetch).Some? ==> FirstWins(found, AllCandidates(s, addresses, fetch).value)
    ensures p in found <==> ListedSomewhere(s, addresses, lists, p)
  {
    CandidatesAreListed(s, addresses, fetch, lists, p);
    var cs := AllCandidates(s, addresses, fetch).value;
    assert p in found <==> HasPosition(cs, p);
  }
}
