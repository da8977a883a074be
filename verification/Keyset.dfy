/** Listing with keyset cursors: crawling page by page against the plain sorted enumeration. */
module Keyset {
  import opened Prelude
  import opened Schema
  import Inventory

  /** A value that rows are sorted by. Times are numbers. */
  datatype Rank = Number(number: real) | Text(text: string) | Flag(flag: bool)

  predicate TextBelow(a: string, b: string) {
    b != "" && (a == "" || a[0] < b[0] || (a[0] == b[0] && TextBelow(a[1..], b[1..])))
  }

  /** The order of the store: numbers before text before flags. */
  predicate Below(a: Rank, b: Rank) {
    match (a, b)
    case (Number(x), Number(y)) => x < y
    case (Text(x), Text(y)) => TextBelow(x, y)
    case (Flag(x), Flag(y)) => !x && y
    case (Number(_), _) => true
    case (Text(_), Flag(_)) => true
    case _ => false
  }

  lemma {:induction false} TextTotal(a: string, b: string)
    ensures TextBelow(a, b) || TextBelow(b, a) || a == b
    ensures TextBelow(a, b) ==> a != b && !TextBelow(b, a)
  {
    if a != "" && b != "" {
      TextTotal(a[1..], b[1..]);
      assert a == [a[0]] + a[1..] && b == [b[0]] + b[1..];
    }
  }

  lemma {:induction false} TextTransitive(a: string, b: string, c: string)
    requires TextBelow(a, b) && TextBelow(b, c)
    ensures TextBelow(a, c)
  {
    if a != "" && a[0] == b[0] == c[0] {
      TextTransitive(a[1..], b[1..], c[1..]);
    }
  }

  /** Where a row stands in a listing: its sort value and its id. */
  datatype Position = Position(value: Rank, id: nat)

  predicate Less(a: Position, b: Position) {
    Below(a.value, b.value) || (a.value == b.value && a.id < b.id)
  }

  lemma BelowTotal(a: Rank, b: Rank)
    ensures Below(a, b) || Below(b, a) || a == b
    ensures Below(a, b) ==> a != b && !Below(b, a)
  {
    if a.Text? && b.Text? {
      TextTotal(a.text, b.text);
    }
  }

  lemma BelowTransitive(a: Rank, b: Rank, c: Rank)
    requires Below(a, b) && Below(b, c)
    ensures Below(a, c)
  {
    if a.Text? && b.Text? && c.Text? {
      TextTransitive(a.text, b.text, c.text);
    }
  }

  /** Positions are in a total order. */
  lemma OrderLaws()
    ensures forall a, b :: Less(a, b) ==> a != b && !Less(b, a)
    ensures forall a, b :: Less(a, b) || Less(b, a) || a == b
    ensures forall a, b, c :: Less(a, b) && Less(b, c) ==> Less(a, c)
  {
    forall a: Position, b: Position
      ensures Less(a, b) || Less(b, a) || a == b
      ensures Less(a, b) ==> a != b && !Less(b, a)
    {
      BelowTotal(a.value, b.value);
    }
    forall a: Position, b: Position, c: Position | Less(a, b) && Less(b, c)
      ensures Less(a, c)
    {
      LessTransitive(a, b, c);
    }
  }

  lemma LessTransitive(a: Position, b: Position, c: Position)
    requires Less(a, b) && Less(b, c)
    ensures Less(a, c)
  {
    if Below(a.value, b.value) && Below(b.value, c.value) {
      BelowTransitive(a.value, b.value, c.value);
    }
  }

  /** `a` is listed before `b`. */
  predicate Before(descending: bool, a: Position, b: Position) {
    if descending then Less(b, a) else Less(a, b)
  }

  predicate First(descending: bool, ps: set<Position>, m: Position) {
    m in ps && forall q | q in ps && q != m :: Before(descending, m, q)
  }

  lemma {:induction false} FirstExists(descending: bool, ps: set<Position>)
    requires ps != {}
    ensures exists m :: First(descending, ps, m)
    decreases |ps|
  {
    OrderLaws();
    var p :| p in ps;
    var rest := ps - {p};
    assert forall q | q in ps && q != p :: q in rest;
    if rest == {} {
      assert First(descending, ps, p);
    } else {
      FirstExists(descending, rest);
      var m :| First(descending, rest, m);
      var first := if Before(descending, m, p) then m else p;
      forall q | q in ps && q != first
        ensures Before(descending, first, q)
      {
        assert q == p || q == m || Before(descending, m, q);
      }
      assert First(descending, ps, first);
    }
  }

  predicate Ordered(descending: bool, s: seq<Position>) {
    forall i, j | 0 <= i < j < |s| :: Before(descending, s[i], s[j])
  }

  /** `s` lists `ps` in order, each position once. */
  ghost predicate Lists(descending: bool, s: seq<Position>, ps: set<Position>) {
    Ordered(descending, s) && |s| == |ps| && forall p :: p in s <==> p in ps
  }

  lemma {:induction false} ListExists(descending: bool, ps: set<Position>)
    ensures exists s :: Lists(descending, s, ps)
    decreases |ps|
  {
    if ps == {} {
      assert Lists(descending, [], ps);
    } else {
      FirstExists(descending, ps);
      var m :| First(descending, ps, m);
      ListExists(descending, ps - {m});
      var rest :| Lists(descending, rest, ps - {m});
      assert forall q | q in rest :: q in ps && q != m;
      OrderedConcat(descending, [m], rest);
      assert Lists(descending, [m] + rest, ps);
    }
  }

  /** The plain sorted enumeration. */
  ghost function Enumerate(descending: bool, ps: set<Position>): (s: seq<Position>)
    ensures Lists(descending, s, ps)
  {
    ListExists(descending, ps);
    var s :| Lists(descending, s, ps);
    s
  }

  lemma HasMember<T>(s: seq<T>)
    ensures s == [] || exists x :: x in s
  {
    if s != [] {
      assert s[0] in s;
    }
  }

  /** There is only one way to list a set in order. */
  lemma {:induction false} OneOrder(descending: bool, s: seq<Position>, t: seq<Position>)
    requires Ordered(descending, s) && Ordered(descending, t) && forall p :: p in s <==> p in t
    ensures s == t
  {
    OrderLaws();
    if s != [] {
      assert s[0] in t && t[0] in s;
      assert s[0] == t[0];
      OneOrder(descending, s[1..], t[1..]) by {
        forall p
          ensures p in s[1..] <==> p in t[1..]
        {
          InTail(descending, s, p);
          InTail(descending, t, p);
        }
      }
    } else {
      HasMember(t);
    }
  }

  lemma InTail(descending: bool, s: seq<Position>, p: Position)
    requires s != [] && Ordered(descending, s)
    ensures p in s[1..] <==> p in s && p != s[0]
  {
    OrderLaws();
    if p in s && p != s[0] {
      var i :| 0 <= i < |s| && s[i] == p;
      assert s[1..][i - 1] == p;
    }
  }

  // ------------------------------------------------------------ pages

  /** The keyset condition: a later sort value, or the same one and a later id. */
  predicate PastCursor(descending: bool, cursor: Option<Position>, p: Position) {
    cursor.Some? ==>
      if descending then Below(p.value, cursor.value.value) || (p.value == cursor.value.value && p.id < cursor.value.id)
      else Below(cursor.value.value, p.value) || (p.value == cursor.value.value && p.id > cursor.value.id)
  }

  function Past(descending: bool, ps: set<Position>, cursor: Option<Position>): set<Position> {
    set p | p in ps && PastCursor(descending, cursor, p)
  }

  function Take<T>(s: seq<T>, n: nat): seq<T> {
    if n <= |s| then s[..n] else s
  }

  ghost function PageAfter(descending: bool, ps: set<Position>, limit: nat, cursor: Option<Position>): seq<Position> {
    Take(Enumerate(descending, Past(descending, ps, cursor)), limit)
  }

  ghost function PageAt(descending: bool, ps: set<Position>, limit: nat, offset: nat): seq<Position> {
    var all := Enumerate(descending, ps);
    if offset <= |all| then Take(all[offset..], limit) else []
  }

  /** Only a full page carries a cursor on. */
  function NextCursor(page: seq<Position>, limit: nat): Option<Position> {
    if |page| == limit && page != [] then Some(page[|page| - 1]) else None
  }

  /** What lies past the `k`-th row of an enumeration is the rest of it. */
  lemma PastIsRest(descending: bool, ps: set<Position>, k: nat)
    requires 0 < k <= |ps|
    ensures var all := Enumerate(descending, ps);
      Enumerate(descending, Past(descending, ps, Some(all[k - 1]))) == all[k..]
  {
    OrderLaws();
    var all := Enumerate(descending, ps);
    var past := Past(descending, ps, Some(all[k - 1]));
    forall p
      ensures p in all[k..] <==> p in past
    {
      if p in past {
        var i :| 0 <= i < |all| && all[i] == p;
        assert Before(descending, all[k - 1], p);
        assert i < k - 1 ==> Before(descending, p, all[k - 1]);
        assert i >= k && all[k..][i - k] == p;
      }
    }
    OneOrder(descending, Enumerate(descending, past), all[k..]);
  }

  // ------------------------------------------------------------ crawling

  /** One request of a crawl: the rows stored when it is served, and its page size. */
  datatype Request = Request(ps: set<Position>, limit: nat)

  datatype Progress = Progress(rows: seq<Position>, next: Option<Position>, finished: bool)

  /** One more page, unless there was no cursor to follow. */
  ghost function Onward(descending: bool, c: Progress, r: Request): Progress {
    if c.finished then c
    else
      var page := PageAfter(descending, r.ps, r.limit, c.next);
      Progress(c.rows + page, NextCursor(page, r.limit), NextCursor(page, r.limit).None?)
  }

  /** Follows the cursors from page to page until one is missing. */
  ghost function Crawl(descending: bool, requests: seq<Request>): Progress {
    if requests == [] then Progress([], None, false)
    else Onward(descending, Crawl(descending, requests[..|requests| - 1]), requests[|requests| - 1])
  }

  predicate PositiveLimits(requests: seq<Request>) {
    forall i | 0 <= i < |requests| :: requests[i].limit > 0
  }

  function Limits(requests: seq<Request>): nat {
    if requests == [] then 0 else Limits(requests[..|requests| - 1]) + requests[|requests| - 1].limit
  }

  predicate Static(requests: seq<Request>, ps: set<Position>) {
    forall i | 0 <= i < |requests| :: requests[i].ps == ps
  }

  /** Where a static crawl stands after requests whose limits add up to `n`. */
  ghost predicate StandsAt(descending: bool, ps: set<Position>, c: Progress, n: nat) {
    var all := Enumerate(descending, ps);
    && c.rows == Take(all, n)
    && (c.finished <==> n > |all|)
    && (!c.finished ==> c.next == if n == 0 then None else Some(all[n - 1]))
  }

  lemma StaticPage(descending: bool, ps: set<Position>, c: Progress, n: nat, limit: nat)
    requires limit > 0 && StandsAt(descending, ps, c, n) && !c.finished
    ensures PageAfter(descending, ps, limit, c.next) == Take(Enumerate(descending, ps)[n..], limit)
  {
    if n > 0 {
      PastIsRest(descending, ps, n);
    } else {
      assert Past(descending, ps, None) == ps;
      assert Enumerate(descending, ps)[0..] == Enumerate(descending, ps);
    }
  }

  lemma TakeMore<T>(all: seq<T>, n: nat, limit: nat)
    requires n <= |all| && limit > 0
    ensures all[..n] + Take(all[n..], limit) == Take(all, n + limit)
    ensures |Take(all[n..], limit)| == limit ==>
      n + limit <= |all| && Take(all[n..], limit)[limit - 1] == all[n + limit - 1]
  {
  }

  lemma FullPageStands(descending: bool, ps: set<Position>, c: Progress, n: nat, limit: nat)
    requires limit > 0 && StandsAt(descending, ps, c, n) && !c.finished
    ensures StandsAt(descending, ps, Onward(descending, c, Request(ps, limit)), n + limit)
  {
    StaticPage(descending, ps, c, n, limit);
    TakeMore(Enumerate(descending, ps), n, limit);
  }

  lemma OnwardStands(descending: bool, ps: set<Position>, c: Progress, n: nat, r: Request)
    requires r.limit > 0 && r.ps == ps && StandsAt(descending, ps, c, n)
    ensures StandsAt(descending, ps, Onward(descending, c, r), n + r.limit)
  {
    if !c.finished {
      FullPageStands(descending, ps, c, n, r.limit);
    }
  }

  lemma NothingCrawled(descending: bool, ps: set<Position>)
    ensures StandsAt(descending, ps, Crawl(descending, []), Limits([]))
  {
  }

  /**
   Over an unchanging collection, requests with limits adding up to `n` have returned exactly the first `n` rows of
   the sorted enumeration, and the crawl is finished exactly when `n` exceeds the number of rows.
   */
  lemma {:induction false} StaticCrawl(descending: bool, requests: seq<Request>, ps: set<Position>)
    requires PositiveLimits(requests) && Static(requests, ps)
    ensures StandsAt(descending, ps, Crawl(descending, requests), Limits(requests))
  {
    if requests == [] {
      NothingCrawled(descending, ps);
    } else {
      var earlier, r := requests[..|requests| - 1], requests[|requests| - 1];
      assert r.limit > 0 && r.ps == ps;
      StaticCrawl(descending, earlier, ps);
      OnwardStands(descending, ps, Crawl(descending, earlier), Limits(earlier), r);
    }
  }

  /** Each page a cursor leads to is the page the matching offset leads to. */
  lemma CursorAgreesWithOffset(descending: bool, requests: seq<Request>, ps: set<Position>, limit: nat)
    requires PositiveLimits(requests) && Static(requests, ps) && !Crawl(descending, requests).finished
    ensures PageAfter(descending, ps, limit, Crawl(descending, requests).next) ==
      PageAt(descending, ps, limit, Limits(requests))
  {
    StaticCrawl(descending, requests, ps);
    if limit > 0 {
      StaticPage(descending, ps, Crawl(descending, requests), Limits(requests), limit);
    }
  }

  function Fixed(ps: set<Position>, limit: nat, k: nat): seq<Request> {
    seq(k, _ => Request(ps, limit))
  }

  lemma {:induction false} FixedLimits(ps: set<Position>, limit: nat, k: nat)
    ensures Limits(Fixed(ps, limit, k)) == k * limit
  {
    if k > 0 {
      assert Fixed(ps, limit, k)[..k - 1] == Fixed(ps, limit, k - 1);
      FixedLimits(ps, limit, k - 1);
    }
  }

  /** At a fixed limit a static crawl takes exactly one request more than the rows fill whole pages. */
  lemma StaticCrawlLength(descending: bool, ps: set<Position>, limit: nat, k: nat)
    requires limit > 0
    ensures Crawl(descending, Fixed(ps, limit, k)).finished <==> k >= |ps| / limit + 1
    ensures k >= |ps| / limit + 1 ==> Crawl(descending, Fixed(ps, limit, k)).rows == Enumerate(descending, ps)
  {
    StaticCrawl(descending, Fixed(ps, limit, k), ps);
    FixedLimits(ps, limit, k);
    PagesNeeded(|ps|, limit, k);
  }

  lemma Distributes(q: nat, limit: nat)
    ensures (q + 1) * limit == q * limit + limit
  {
  }

  lemma ProductGrows(a: nat, b: nat, limit: nat)
    requires a <= b
    ensures a * limit <= b * limit
  {
  }

  lemma PagesNeeded(n: nat, limit: nat, k: nat)
    requires limit > 0
    ensures k * limit > n <==> k >= n / limit + 1
  {
    var q := n / limit;
    assert q * limit <= n < q * limit + limit;
    Distributes(q, limit);
    if k >= q + 1 {
      ProductGrows(q + 1, k, limit);
    } else {
      ProductGrows(k, q, limit);
    }
  }

  // ------------------------------------------------------------ a changing collection

  /** Present, with the same sort value, whenever a page was served. */
  predicate Throughout(requests: seq<Request>, p: Position) {
    forall i | 0 <= i < |requests| :: p in requests[i].ps
  }

  lemma OrderedConcat(descending: bool, s: seq<Position>, t: seq<Position>)
    requires Ordered(descending, s) && Ordered(descending, t)
    requires s != [] ==> forall p | p in t :: Before(descending, s[|s| - 1], p)
    ensures Ordered(descending, s + t)
  {
    OrderLaws();
    forall i, j | 0 <= i < j < |s + t|
      ensures Before(descending, (s + t)[i], (s + t)[j])
    {
      if i < |s| <= j {
        assert t[j - |s|] in t;
      }
    }
  }

  /** A page holds everything past the cursor up to its last row, and everything past the cursor if it is not full. */
  lemma PageIsGapless(descending: bool, ps: set<Position>, limit: nat, cursor: Option<Position>, p: Position)
    requires limit > 0 && p in ps && PastCursor(descending, cursor, p)
    ensures var page := PageAfter(descending, ps, limit, cursor);
      p in page || (NextCursor(page, limit).Some? && Before(descending, NextCursor(page, limit).value, p))
  {
    var all := Enumerate(descending, Past(descending, ps, cursor));
    assert p in all;
    var i :| 0 <= i < |all| && all[i] == p;
    if i < limit {
      assert Take(all, limit)[i] == p;
    }
  }

  ghost predicate CrawlSound(descending: bool, requests: seq<Request>, c: Progress) {
    && Ordered(descending, c.rows)
    && (c.next.Some? ==> c.rows != [] && c.next.value == c.rows[|c.rows| - 1])
    && (requests != [] ==> (c.finished <==> c.next.None?))
    && (requests == [] ==> c == Progress([], None, false))
    && (forall p | requests != [] && Throughout(requests, p) ::
        p in c.rows || (c.next.Some? && Before(descending, c.next.value, p)))
  }

  lemma CrawlStep(descending: bool, earlier: seq<Request>, r: Request, c: Progress)
    requires r.limit > 0 && CrawlSound(descending, earlier, c) && !c.finished
    ensures var page := PageAfter(descending, r.ps, r.limit, c.next);
      var next := NextCursor(page, r.limit);
      CrawlSound(descending, earlier + [r], Progress(c.rows + page, next, next.None?))
  {
    var page := PageAfter(descending, r.ps, r.limit, c.next);
    var requests := earlier + [r];
    assert Ordered(descending, page);
    forall p | p in page
      ensures p in r.ps && PastCursor(descending, c.next, p)
    {
      assert p in Enumerate(descending, Past(descending, r.ps, c.next));
    }
    OrderedConcat(descending, c.rows, page);
    forall p | Throughout(requests, p)
      ensures var next := NextCursor(page, r.limit);
        p in c.rows + page || (next.Some? && Before(descending, next.value, p))
    {
      assert requests[|earlier|] == r;
      assert forall i | 0 <= i < |earlier| :: requests[i] == earlier[i];
      if p !in c.rows {
        PageIsGapless(descending, r.ps, r.limit, c.next, p);
      }
    }
  }

  lemma {:induction false} EveryCrawlIsSound(descending: bool, requests: seq<Request>)
    requires PositiveLimits(requests)
    ensures CrawlSound(descending, requests, Crawl(descending, requests))
  {
    if requests != [] {
      var earlier, r := requests[..|requests| - 1], requests[|requests| - 1];
      assert requests == earlier + [r];
      EveryCrawlIsSound(descending, earlier);
      var c := Crawl(descending, earlier);
      if !c.finished {
        CrawlStep(descending, earlier, r, c);
      } else {
        assert forall p | Throughout(requests, p) :: Throughout(earlier, p);
      }
    }
  }

  /** How often a row is returned. */
  function Occurrences(rows: seq<Position>, p: Position): nat {
    |set i | 0 <= i < |rows| && rows[i] == p|
  }

  /**
   However rows come and go between the pages, no position is returned twice, and a finished crawl has returned every
   row that was there throughout with an unchanged sort value exactly once.
   */
  lemma FinishedCrawlMissesNothing(descending: bool, requests: seq<Request>, p: Position)
    requires PositiveLimits(requests)
    ensures var c := Crawl(descending, requests);
      && Occurrences(c.rows, p) <= 1
      && (c.finished && Throughout(requests, p) ==> Occurrences(c.rows, p) == 1)
  {
    EveryCrawlIsSound(descending, requests);
    OrderedOnce(descending, Crawl(descending, requests).rows, p);
  }

  lemma OrderedIsDistinct(descending: bool, rows: seq<Position>)
    requires Ordered(descending, rows)
    ensures Distinct(rows)
  {
    OrderLaws();
    forall i, j | 0 <= i < j < |rows|
      ensures rows[i] != rows[j]
    {
      assert Before(descending, rows[i], rows[j]);
    }
  }

  lemma OrderedOnce(descending: bool, rows: seq<Position>, p: Position)
    requires Ordered(descending, rows)
    ensures Occurrences(rows, p) == if p in rows then 1 else 0
  {
    OrderedIsDistinct(descending, rows);
    var places := set i | 0 <= i < |rows| && rows[i] == p;
    if p in rows {
      var i :| 0 <= i < |rows| && rows[i] == p;
      assert places == {i};
    } else {
      assert places == {};
    }
  }

  /**
   The sort value must not change: a row moved behind the cursor between two pages is returned again under its new
   value.
   */
  lemma MovedRowComesTwice()
    ensures var a, b, a' := Position(Number(1.0), 10), Position(Number(2.0), 20), Position(Number(3.0), 10);
      Crawl(false, [Request({a, b}, 1), Request({b, a'}, 3)]).rows == [a, b, a']
  {
    var a, b, a' := Position(Number(1.0), 10), Position(Number(2.0), 20), Position(Number(3.0), 10);
    var first, both := [Request({a, b}, 1)], [Request({a, b}, 1), Request({b, a'}, 3)];
    assert both[..1] == first && first[..0] == [];
    FirstPageOfTwo(a, b);
    SecondPageOfTwo(a, b, a');
    assert Crawl(false, []) == Progress([], None, false);
  }

  lemma FirstPageOfTwo(a: Position, b: Position)
    requires Less(a, b)
    ensures PageAfter(false, {a, b}, 1, None) == [a]
  {
    assert Past(false, {a, b}, None) == {a, b};
    OneOrder(false, Enumerate(false, {a, b}), [a, b]);
  }

  lemma SecondPageOfTwo(a: Position, b: Position, c: Position)
    requires Less(a, b) && Less(b, c)
    ensures PageAfter(false, {b, c}, 3, Some(a)) == [b, c]
  {
    OrderLaws();
    assert Past(false, {b, c}, Some(a)) == {b, c};
    OneOrder(false, Enumerate(false, {b, c}), [b, c]);
  }

  // ------------------------------------------------------------ the listing operation

  datatype Stored = Stored(createdAt: int, updatedAt: int, doc: Doc)

  datatype SortKey = CreatedAt | UpdatedAt | Field(name: string)

  datatype Page = Page(items: seq<Position>, limit: nat, nextCursor: Option<Position>, nextOffset: Option<nat>,
                       total: Option<nat>)

  const RESERVED := {"limit", "offset", "sort", "include_total", "cursor"}

  /** The page size in force, given the configured default and maximum. */
  function ClampLimit(limit: Option<int>, defaultSize: int, maxSize: int): (n: nat)
    ensures 1 <= n && (n <= maxSize || n == 1)
    ensures limit.Some? && 1 <= limit.value <= maxSize ==> n == limit.value
    ensures limit.Some? && 1 <= maxSize < limit.value ==> n == maxSize
    ensures limit.Some? && limit.value < 0 ==> n == 1
    ensures (limit.None? || limit.value == 0) && 1 <= defaultSize <= maxSize ==> n == defaultSize
    ensures (limit.None? || limit.value == 0) && 1 <= maxSize < defaultSize ==> n == maxSize
  {
    var wanted := if limit.None? || limit.value == 0 then defaultSize else limit.value;
    var capped := if wanted < maxSize then wanted else maxSize;
    if capped < 1 then 1 else capped
  }

  /** The sort field and whether it descends; nothing for an unknown field. */
  function ParseSort(sort: Option<string>, fields: set<string>): Option<(SortKey, bool)> {
    if sort.None? || sort.value == "" then Some((UpdatedAt, true))
    else
      var descending := sort.value[0] == '-';
      var field := if descending then sort.value[1..] else sort.value;
      if field == "created_at" then Some((CreatedAt, descending))
      else if field == "updated_at" then Some((UpdatedAt, descending))
      else if field in fields then Some((Field(field), descending))
      else None
  }

  /** How numerals are read: nothing for text that is not one. */
  datatype Numerals = Numerals(toInt: string -> Option<int>, toFloat: string -> Option<real>)

  /** The value a query parameter stands for, by the type of its field. */
  function CoerceFilterValue(spec: FieldSpec, raw: string, numerals: Numerals): Option<Value> {
    match spec.fieldType
    case ScalarField(IntegerType) =>
      var i := numerals.toInt(raw);
      if i.Some? then Some(Int(i.value)) else None
    case ScalarField(NumberType) =>
      var r := numerals.toFloat(raw);
      if r.Some? then Some(Num(r.value)) else None
    case ScalarField(BooleanType) => Some(Bool(Inventory.Lower(raw) in {"1", "true", "yes"}))
    case _ => Some(Str(raw))
  }

  /** Every parameter that is not reserved names a field and can be read as a value of its type. */
  ghost predicate WellFormed(filters: map<string, string>, fields: map<string, FieldSpec>, numerals: Numerals) {
    forall k | k in filters && k !in RESERVED ::
      k in fields && CoerceFilterValue(fields[k], filters[k], numerals).Some?
  }

  /** What the parameters ask for. */
  ghost function FilterOf(filters: map<string, string>, fields: map<string, FieldSpec>, numerals: Numerals): Doc
    requires WellFormed(filters, fields, numerals)
  {
    map k | k in filters && k !in RESERVED :: CoerceFilterValue(fields[k], filters[k], numerals).value
  }

  /** A list matches if it is the value asked for or contains it. */
  predicate Matches(doc: Doc, filter: Doc) {
    forall k | k in filter :: k in doc && (doc[k] == filter[k] || (doc[k].List? && filter[k] in doc[k].items))
  }

  /** A field that is sorted by holds a number, a text or a flag in every row. */
  predicate Sortable(row: Stored, key: SortKey) {
    key.Field? ==> key.name in row.doc && !row.doc[key.name].Null? && !row.doc[key.name].List?
  }

  function SortValue(row: Stored, key: SortKey): Rank
    requires Sortable(row, key)
  {
    match key
    case CreatedAt => Number(row.createdAt as real)
    case UpdatedAt => Number(row.updatedAt as real)
    case Field(name) =>
      match row.doc[name]
      case Int(i) => Number(i as real)
      case Num(r) => Number(r)
      case Str(s) => Text(s)
      case Bool(b) => Flag(b)
  }

  class CiListing {
    const fields: map<string, FieldSpec>
    const numerals: Numerals
    const defaultSize: int
    const maxSize: int
    var rows: map<nat, Stored>

    constructor (fields: map<string, FieldSpec>, numerals: Numerals, defaultSize: int, maxSize: int)
      ensures this.fields == fields && this.numerals == numerals
      ensures this.defaultSize == defaultSize && this.maxSize == maxSize && rows == map[]
    {
      this.fields, this.numerals, this.defaultSize, this.maxSize := fields, numerals, defaultSize, maxSize;
      rows := map[];
    }

    function Positions(key: SortKey, filter: Doc): (ps: set<Position>)
      requires forall id | id in rows :: Sortable(rows[id], key)
      reads this
      ensures forall p ::
        p in ps <==> p.id in rows && Matches(rows[p.id].doc, filter) && p.value == SortValue(rows[p.id], key)
    {
      set id | id in rows && Matches(rows[id].doc, filter) :: Position(SortValue(rows[id], key), id)
    }

    /** Drops the reserved parameters; fails on one that names no field or cannot be read as a value of it. */
    method BuildFilter(filters: map<string, string>) returns (filter: Option<Doc>)
      ensures filter.Some? <==> WellFormed(filters, fields, numerals)
      ensures filter.Some? ==> filter.value == FilterOf(filters, fields, numerals)
    {
      var built: Doc := map[];
      var todo := filters.Keys;
      while todo != {}
        invariant todo <= filters.Keys
        invariant built.Keys == set k | k in filters && k !in todo && k !in RESERVED
        invariant forall k | k in built ::
          k in fields && CoerceFilterValue(fields[k], filters[k], numerals) == Some(built[k])
        decreases |todo|
      {
        var k :| k in todo;
        if k !in RESERVED {
          if k !in fields {
            return None;
          }
          var value := CoerceFilterValue(fields[k], filters[k], numerals);
          if value.None? {
            return None;
          }
          built := built[k := value.value];
        }
        todo := todo - {k};
      }
      assert WellFormed(filters, fields, numerals) by {
        assert forall k | k in filters && k !in RESERVED :: k in built;
      }
      assert built == FilterOf(filters, fields, numerals);
      filter := Some(built);
    }

    /** The store's sort, taking the first remaining position each time. */
    method Sort(descending: bool, ps: set<Position>) returns (sorted: seq<Position>)
      ensures sorted == Enumerate(descending, ps)
    {
      sorted := [];
      var rest := ps;
      while rest != {}
        invariant rest <= ps
        invariant Ordered(descending, sorted) && forall p :: p in sorted <==> p in ps && p !in rest
        invariant forall p, q | p in sorted && q in rest :: Before(descending, p, q)
        decreases |rest|
      {
        FirstExists(descending, rest);
        var m :| m in rest && First(descending, rest, m);
        OrderedConcat(descending, sorted, [m]);
        sorted := sorted + [m];
        rest := rest - {m};
      }
      OneOrder(descending, sorted, Enumerate(descending, ps));
    }

    /** Query, sort, skip and limit: a cursor narrows the query, otherwise rows are skipped. */
    method Find(descending: bool, matching: set<Position>, cursor: Option<Position>, start: nat,
                n: nat) returns (items: seq<Position>)
      ensures items ==
        if cursor.Some? then PageAfter(descending, matching, n, cursor) else PageAt(descending, matching, n, start)
    {
      if cursor.Some? {
        var sorted := Sort(descending, Past(descending, matching, cursor));
        items := Take(sorted, n);
      } else {
        var sorted := Sort(descending, matching);
        items := if start <= |sorted| then Take(sorted[start..], n) else [];
      }
    }

    method FetchPage(descending: bool, matching: set<Position>, cursor: Option<Position>, start: nat, n: nat,
                     includeTotal: bool)
      returns (page: Page)
      requires n > 0
      ensures Answers(page, descending, matching, cursor, start, n, includeTotal)
    {
      var items := Find(descending, matching, cursor, start, n);
      page := AssemblePage(items, cursor, start, n, if includeTotal then Some(|matching|) else None);
    }

    method AssemblePage(items: seq<Position>, cursor: Option<Position>, start: nat, n: nat,
                        total: Option<nat>) returns (page: Page)
      requires n > 0
      ensures page ==
        Page(items, n, NextCursor(items, n), if cursor.None? && |items| == n then Some(start + n) else None, total)
    {
      var full := |items| == n;
      var nextCursor := if full then Some(items[|items| - 1]) else None;
      var nextOffset := if cursor.None? && full then Some(start + n) else None;
      page := Page(items, n, nextCursor, nextOffset, total);
    }

    /**
     One page of the filtered rows, from a cursor or from an offset.
     `None` stands for a request with an unknown filter or sort field, or with a filter value of the wrong type.
     */
    method List(sort: Option<string>, limit: Option<int>, offset: int, cursor: Option<Position>,
                filters: map<string, string>, includeTotal: bool)
      returns (page: Option<Page>)
      requires ParseSort(sort, fields.Keys).Some? ==>
        forall id | id in rows :: Sortable(rows[id], ParseSort(sort, fields.Keys).value.0)
      ensures page.Some? <==> WellFormed(filters, fields, numerals) && ParseSort(sort, fields.Keys).Some?
      ensures page.Some? ==>
        var (key, descending) := ParseSort(sort, fields.Keys).value;
        Answers(page.value, descending, Positions(key, FilterOf(filters, fields, numerals)), cursor,
                if offset < 0 then 0 else offset, ClampLimit(limit, defaultSize, maxSize), includeTotal)
    {
      var filter := BuildFilter(filters);
      if filter.None? {
        return None;
      }
      var parsed := ParseSort(sort, fields.Keys);
      if parsed.None? {
        return None;
      }
      var matching := Positions(parsed.value.0, filter.value);
      var start := if offset < 0 then 0 else offset;
      var size := ClampLimit(limit, defaultSize, maxSize);
      var fetched := FetchPage(parsed.value.1, matching, cursor, start, size, includeTotal);
      page := Some(fetched);
    }
  }

  /** The page a request is owed: its rows, and how to ask for the next ones. */
  ghost predicate Answers(page: Page, descending: bool, ps: set<Position>, cursor: Option<Position>, start: nat,
                          n: nat, includeTotal: bool) {
    && page.limit == n
    && page.items == (if cursor.Some? then PageAfter(descending, ps, n, cursor) else PageAt(descending, ps, n, start))
    && page.nextCursor == NextCursor(page.items, n)
    && page.nextOffset == (if cursor.None? && |page.items| == n then Some(start + n) else None)
    && page.total == (if includeTotal then Some(|ps|) else None)
  }
}
