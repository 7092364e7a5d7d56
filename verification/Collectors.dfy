/** The paginated support-bundle collectors (cmd/stewardctl/control_support_bundle.go) against
    a server that may answer anything.

    `Run` is what a collector may have exchanged with the server and returned; the methods are
    proved to make only such runs, and the lemmas say what a run means. */
module Collectors {
  import opened Common
  import opened Ordering

  datatype Item = Item(id: string, body: string)

  datatype Page = Page(items: seq<Item>, next: string)

  /** One request and the answer to it, or a transport error. */
  datatype Exchange = Exchange(after: string, page: Option<Page>)

  /** Nodes and deployments page by an ascending `after`, the other inventories by an opaque
      cursor. */
  datatype Rule = Keyset | Cursor

  datatype Outcome = Collected(items: seq<Item>) | Failed | TooMany | Stalled | NotVisible

  const MAX_ITEMS := 32768

  predicate Stuck(rule: Rule, after: string, page: Page) {
    || page.items == []
    || match rule
       case Keyset => AtMost(page.next, after)
       case Cursor => page.next == after
  }

  function Joined(pages: seq<Exchange>): seq<Item> {
    if pages == [] then []
    else
      var k := |pages| - 1;
      Joined(pages[..k]) + if pages[k].page.Some? then pages[k].page.value.items else []
  }

  /** Where the next request goes on. */
  function NextAfter(pages: seq<Exchange>): string {
    if pages == [] || pages[|pages| - 1].page.None? then "" else pages[|pages| - 1].page.value.next
  }

  /** Exchanges after each of which the collector asks again, from where the answer pointed. */
  predicate Continued(rule: Rule, pages: seq<Exchange>) {
    pages == [] ||
    var k := |pages| - 1;
    && Continued(rule, pages[..k])
    && pages[k].after == NextAfter(pages[..k])
    && pages[k].page.Some? && pages[k].page.value.next != ""
    && !Stuck(rule, pages[k].after, pages[k].page.value)
  }

  /** The exchanges of one collection and its result. */
  predicate Run(rule: Rule, pages: seq<Exchange>, r: Outcome) {
    && pages != []
    && var k := |pages| - 1;
       var last := pages[k];
       && last.after == NextAfter(pages[..k])
       && Continued(rule, pages[..k])
       && |Joined(pages[..k])| <= MAX_ITEMS
       && (last.page.None? ==> r == Failed)
       && (last.page.Some? ==>
             r == if |Joined(pages)| > MAX_ITEMS then TooMany
                  else if last.page.value.next == "" then Collected(Joined(pages))
                  else Stalled)
       && (r == Stalled ==> Stuck(rule, last.after, last.page.value))
  }

  /** The tenant inventory looks at its count only when another page follows. */
  predicate TenantRun(pages: seq<Exchange>, selected: string, r: Outcome) {
    && pages != []
    && var k := |pages| - 1;
       var last := pages[k];
       && last.after == NextAfter(pages[..k])
       && Continued(Keyset, pages[..k])
       && |Joined(pages[..k])| <= MAX_ITEMS
       && (last.page.None? ==> r == Failed)
       && (last.page.Some? ==>
             if last.page.value.next != ""
             then r == Stalled && (Stuck(Keyset, last.after, last.page.value) || |Joined(pages)| > MAX_ITEMS)
             else r == TenantsOf(Joined(pages), selected))
  }

  function Matching(items: seq<Item>, selected: string): seq<Item> {
    if items == [] then []
    else
      var k := |items| - 1;
      Matching(items[..k], selected) + if selected == "" || items[k].id == selected then [items[k]] else []
  }

  function TenantsOf(items: seq<Item>, selected: string): Outcome {
    var m := Matching(items, selected);
    if selected != "" && |m| != 1 then NotVisible else Collected(m)
  }

  // ---------------------------------------------------------------- the code

  class Client {
    ghost var log: seq<Exchange>

    /** A list request; the answer is whatever the server and the network make of it. */
    method List(after: string) returns (page: Option<Page>)
      modifies this
      ensures log == old(log) + [Exchange(after, page)]
    {
      page := *;
      log := log + [Exchange(after, page)];
    }
  }

  lemma Extends(pages: seq<Exchange>, x: Exchange)
    ensures (pages + [x])[..|pages|] == pages
    ensures Joined(pages + [x]) == Joined(pages) + if x.page.Some? then x.page.value.items else []
  {
    assert (pages + [x])[..|pages|] == pages;
  }

  /** `collectSupportBundleNodes` and `collectSupportBundleDeployments`. */
  method CollectByKey(client: Client) returns (r: Outcome, ghost pages: seq<Exchange>)
    modifies client
    ensures client.log == old(client.log) + pages
    ensures Run(Keyset, pages, r)
    ensures |pages| <= MAX_ITEMS + 1
  {
    var result: seq<Item> := [];
    var after := "";
    pages := [];
    while true
      invariant client.log == old(client.log) + pages
      invariant Continued(Keyset, pages)
      invariant result == Joined(pages) && |result| <= MAX_ITEMS
      invariant after == NextAfter(pages)
      decreases MAX_ITEMS + 1 - |result|
    {
      var answer := client.List(after);
      Extends(pages, Exchange(after, answer));
      pages := pages + [Exchange(after, answer)];
      if answer.None? {
        RunIsBounded(Keyset, pages, Failed);
        return Failed, pages;
      }
      var page := answer.value;
      result := result + page.items;
      if |result| > MAX_ITEMS {
        RunIsBounded(Keyset, pages, TooMany);
        return TooMany, pages;
      }
      if page.next == "" {
        RunIsBounded(Keyset, pages, Collected(result));
        return Collected(result), pages;
      }
      if |page.items| == 0 || AtMost(page.next, after) {
        RunIsBounded(Keyset, pages, Stalled);
        return Stalled, pages;
      }
      after := page.next;
    }
  }

  /** `supportBundleCursorProgress`: an error, or the cursor to go on with. */
  method CursorProgress(cursor: string, next: string, pageCount: nat, count: nat)
    returns (error: Option<Outcome>, advanced: string)
    ensures error.Some? <==> count > MAX_ITEMS || (next != "" && (pageCount == 0 || next == cursor))
    ensures error == Some(TooMany) <==> count > MAX_ITEMS
    ensures error.Some? ==> error.value == TooMany || error.value == Stalled
    ensures error.None? ==> advanced == if next == "" then cursor else next
  {
    advanced := cursor;
    if count > MAX_ITEMS {
      return Some(TooMany), advanced;
    }
    if next != "" {
      if pageCount == 0 || next == cursor {
        return Some(Stalled), advanced;
      }
      advanced := next;
    }
    error := None;
  }

  /** The five cursor-based collectors: attention, timeline, agents, commands, credentials. */
  method CollectByCursor(client: Client) returns (r: Outcome, ghost pages: seq<Exchange>)
    modifies client
    ensures client.log == old(client.log) + pages
    ensures Run(Cursor, pages, r)
    ensures |pages| <= MAX_ITEMS + 1
  {
    var result: seq<Item> := [];
    var cursor := "";
    pages := [];
    while true
      invariant client.log == old(client.log) + pages
      invariant Continued(Cursor, pages)
      invariant result == Joined(pages) && |result| <= MAX_ITEMS
      invariant cursor == NextAfter(pages)
      decreases MAX_ITEMS + 1 - |result|
    {
      var answer := client.List(cursor);
      Extends(pages, Exchange(cursor, answer));
      pages := pages + [Exchange(cursor, answer)];
      if answer.None? {
        RunIsBounded(Cursor, pages, Failed);
        return Failed, pages;
      }
      var page := answer.value;
      result := result + page.items;
      var error, advanced := CursorProgress(cursor, page.next, |page.items|, |result|);
      if error.Some? {
        r := error.value;
        RunIsBounded(Cursor, pages, r);
        return;
      }
      cursor := advanced;
      if page.next == "" {
        RunIsBounded(Cursor, pages, Collected(result));
        return Collected(result), pages;
      }
    }
  }

  /** `collectSupportBundleTenants`. */
  method CollectTenants(client: Client, selected: string) returns (r: Outcome, ghost pages: seq<Exchange>)
    modifies client
    ensures client.log == old(client.log) + pages
    ensures TenantRun(pages, selected, r)
    ensures |pages| <= MAX_ITEMS + 1
  {
    hide Matching;
    hide Less;
    assert Matching([], selected) == [] by {
      MatchingNothing(selected);
    }
    var result: seq<Item> := [];
    var after := "";
    var seen := 0;
    pages := [];
    while true
      invariant client.log == old(client.log) + pages
      invariant Continued(Keyset, pages)
      invariant seen == |Joined(pages)| <= MAX_ITEMS
      invariant result == Matching(Joined(pages), selected)
      invariant after == NextAfter(pages)
      decreases MAX_ITEMS + 1 - seen
    {
      var answer := client.List(after);
      Extends(pages, Exchange(after, answer));
      PagesAreCounted(Keyset, pages);
      ghost var before := Joined(pages);
      pages := pages + [Exchange(after, answer)];
      if answer.None? {
        return Failed, pages;
      }
      var page := answer.value;
      result := AppendMatching(result, page.items, selected, before);
      seen := seen + |page.items|;
      if page.next == "" {
        break;
      }
      if |page.items| == 0 || AtMost(page.next, after) || seen > MAX_ITEMS {
        return Stalled, pages;
      }
      after := page.next;
    }
    if selected != "" && (|result| != 1 || result[0].id != selected) {
      MatchingMatches(Joined(pages), selected);
      return NotVisible, pages;
    }
    r := Collected(result);
  }

  method AppendMatching(found: seq<Item>, items: seq<Item>, selected: string, ghost before: seq<Item>) returns (result: seq<Item>)
    requires found == Matching(before, selected)
    ensures result == Matching(before + items, selected)
  {
    hide Matching;
    result := found;
    assert before + items[..0] == before;
    for i := 0 to |items|
      invariant result == Matching(before + items[..i], selected)
    {
      assert before + items[..i + 1] == (before + items[..i]) + [items[i]];
      MatchingAppends(before + items[..i], items[i], selected);
      if selected == "" || items[i].id == selected {
        result := result + [items[i]];
      }
    }
    assert items[..|items|] == items;
  }

  lemma MatchingAppends(items: seq<Item>, item: Item, selected: string)
    ensures Matching(items + [item], selected) ==
            Matching(items, selected) + if selected == "" || item.id == selected then [item] else []
  {
    assert (items + [item])[..|items|] == items;
  }

  lemma MatchingNothing(selected: string)
    ensures Matching([], selected) == []
  {
  }

  lemma {:induction false} MatchingMatches(items: seq<Item>, selected: string)
    requires selected != ""
    ensures forall i :: 0 <= i < |Matching(items, selected)| ==> Matching(items, selected)[i].id == selected
  {
    if items == [] {
    } else {
      MatchingMatches(items[..|items| - 1], selected);
    }
  }

  // ---------------------------------------------------------------- any server

  /** Every answer a collector goes on from brought at least one item. */
  lemma {:induction false} PagesAreCounted(rule: Rule, pages: seq<Exchange>)
    requires Continued(rule, pages)
    ensures |pages| <= |Joined(pages)|
  {
    if pages == [] {
    } else {
      PagesAreCounted(rule, pages[..|pages| - 1]);
    }
  }

  /** Against any server a collection ends within 32,769 requests. */
  lemma RunIsBounded(rule: Rule, pages: seq<Exchange>, r: Outcome)
    requires Run(rule, pages, r)
    ensures |pages| <= MAX_ITEMS + 1
  {
    PagesAreCounted(rule, pages[..|pages| - 1]);
  }

  // ---------------------------------------------------------------- a server with a fixed inventory

  /** An inventory and, for each position, the `after` or cursor value that points there. */
  datatype Server = Server(inventory: seq<Item>, marks: seq<string>)

  function Ids(items: seq<Item>): seq<string> {
    seq(|items|, i requires 0 <= i < |items| => items[i].id)
  }

  /** A keyset server points at a position by the ID of the item before it. */
  function KeysetServer(inventory: seq<Item>): Server {
    Server(inventory, [""] + Ids(inventory))
  }

  ghost predicate WellMarked(rule: Rule, sv: Server) {
    && |sv.marks| == |sv.inventory| + 1 && sv.marks[0] == ""
    && forall j, k :: 0 <= j < k < |sv.marks| ==>
         sv.marks[j] != sv.marks[k] && (rule == Keyset ==> Less(sv.marks[j], sv.marks[k]))
  }

  /** A page of any size, at least one item while there is one left. */
  ghost predicate Answers(sv: Server, x: Exchange, k: nat, e: nat)
    requires |sv.marks| == |sv.inventory| + 1
  {
    && k <= e <= |sv.inventory| && (k < e || e == |sv.inventory|)
    && x.after == sv.marks[k]
    && x.page == Some(Page(sv.inventory[k..e], if e < |sv.inventory| then sv.marks[e] else ""))
  }

  ghost predicate Serves(sv: Server, pages: seq<Exchange>)
    requires |sv.marks| == |sv.inventory| + 1
  {
    forall i :: 0 <= i < |pages| && pages[i].page.Some? ==> exists k: nat, e: nat :: Answers(sv, pages[i], k, e)
  }

  lemma KeysetServerIsWellMarked(inventory: seq<Item>)
    requires StrictlyAscending(Ids(inventory)) && "" !in Ids(inventory)
    ensures WellMarked(Keyset, KeysetServer(inventory))
  {
    var marks := KeysetServer(inventory).marks;
    forall j, k | 0 <= j < k < |marks| ensures Less(marks[j], marks[k]) && marks[j] != marks[k] {
      assert marks[k] == Ids(inventory)[k - 1];
      assert j > 0 ==> marks[j] == Ids(inventory)[j - 1];
      LessTrichotomy(marks[j], marks[k]);
    }
  }

  lemma PageFrom(rule: Rule, sv: Server, x: Exchange, q: nat) returns (e: nat)
    requires WellMarked(rule, sv) && q <= |sv.inventory| && x.after == sv.marks[q]
    requires exists k: nat, e: nat :: Answers(sv, x, k, e)
    ensures Answers(sv, x, q, e)
    ensures sv.inventory[..q] + sv.inventory[q..e] == sv.inventory[..e]
  {
    var k: nat, end: nat :| Answers(sv, x, k, end);
    assert k == q;
    e := end;
  }

  /** After the pages it went on from, a collector holds the inventory up to where it asks next. */
  lemma {:induction false} HoldsPrefix(rule: Rule, sv: Server, pages: seq<Exchange>) returns (p: nat)
    requires WellMarked(rule, sv) && Serves(sv, pages)
    requires Continued(rule, pages)
    ensures p <= |sv.inventory| && (pages != [] ==> p < |sv.inventory|)
    ensures Joined(pages) == sv.inventory[..p]
    ensures sv.marks[p] == NextAfter(pages)
  {
    if pages == [] {
      p := 0;
    } else {
      var i := |pages| - 1;
      assert forall j :: 0 <= j < i ==> pages[..i][j] == pages[j];
      var q := HoldsPrefix(rule, sv, pages[..i]);
      p := PageFrom(rule, sv, pages[i], q);
    }
  }

  /** Collectors are complete: against a server with a fixed inventory, and unless a request
      fails, the result is the whole inventory in order, or the limit error exactly when the
      inventory is over the limit; it never stalls. */
  lemma CollectsEverything(rule: Rule, sv: Server, pages: seq<Exchange>, r: Outcome)
    requires WellMarked(rule, sv) && Serves(sv, pages) && Run(rule, pages, r)
    ensures r == Failed || r == if |sv.inventory| <= MAX_ITEMS then Collected(sv.inventory) else TooMany
  {
    if pages[|pages| - 1].page.Some? {
      LastPage(rule, sv, pages);
    }
  }

  /** The last answer ends the inventory, or a progressing page follows it. */
  lemma LastPage(rule: Rule, sv: Server, pages: seq<Exchange>)
    requires WellMarked(rule, sv) && Serves(sv, pages)
    requires pages != [] && pages[|pages| - 1].page.Some?
    requires Continued(rule, pages[..|pages| - 1]) && pages[|pages| - 1].after == NextAfter(pages[..|pages| - 1])
    ensures var page := pages[|pages| - 1].page.value;
            && (page.next == "" ==> Joined(pages) == sv.inventory)
            && (page.next != "" ==> !Stuck(rule, pages[|pages| - 1].after, page) && |Joined(pages)| < |sv.inventory|)
  {
    var i := |pages| - 1;
    assert forall j :: 0 <= j < i ==> pages[..i][j] == pages[j];
    var q := HoldsPrefix(rule, sv, pages[..i]);
    var e := PageFrom(rule, sv, pages[i], q);
    if e < |sv.inventory| {
      assert sv.marks[0] == "" && sv.marks[e] != "";
      LessTrichotomy(sv.marks[q], sv.marks[e]);
    } else {
      assert sv.inventory[..e] == sv.inventory;
    }
  }

  /** The tenant collector is complete too.  It refuses only inventories over the limit, and of
      those exactly the ones of which more than the limit was read with some still to come. */
  lemma TenantsAreComplete(sv: Server, pages: seq<Exchange>, selected: string, r: Outcome)
    requires WellMarked(Keyset, sv) && Serves(sv, pages) && TenantRun(pages, selected, r)
    ensures r == Failed || r == TenantsOf(sv.inventory, selected) || (r == Stalled && |sv.inventory| > MAX_ITEMS)
    ensures pages[|pages| - 1].page.Some? ==> (r == Stalled <==> MAX_ITEMS < |Joined(pages)| < |sv.inventory|)
  {
    if pages[|pages| - 1].page.Some? {
      LastPage(Keyset, sv, pages);
    }
  }

  // ---------------------------------------------------------------- the tenant limit, by page borders

  /** Where the server's pages end: from nothing to the whole inventory, each page non-empty
      unless the inventory is. */
  ghost predicate Borders(sv: Server, b: seq<nat>) {
    && |b| >= 2 && b[0] == 0 && b[|b| - 1] == |sv.inventory|
    && (if sv.inventory == [] then |b| == 2 else forall i, j :: 0 <= i < j < |b| ==> b[i] < b[j])
  }

  ghost predicate AnswersFrom(sv: Server, b: seq<nat>, x: Exchange, i: nat) {
    |sv.marks| == |sv.inventory| + 1 && i + 1 < |b| && Answers(sv, x, b[i], b[i + 1])
  }

  /** The answers are those pages, one after the other. */
  ghost predicate PagedBy(sv: Server, b: seq<nat>, pages: seq<Exchange>) {
    forall k :: 0 <= k < |pages| && pages[k].page.Some? ==> AnswersFrom(sv, b, pages[k], k)
  }

  /** Page by page a collector holds the inventory up to the border it has reached. */
  lemma {:induction false} HoldsBorder(sv: Server, b: seq<nat>, pages: seq<Exchange>)
    requires WellMarked(Keyset, sv) && Borders(sv, b) && PagedBy(sv, b, pages) && Continued(Keyset, pages)
    ensures |pages| + 2 <= |b| && b[|pages|] <= |sv.inventory|
    ensures Joined(pages) == sv.inventory[..b[|pages|]] && sv.marks[b[|pages|]] == NextAfter(pages)
  {
    if pages == [] {
    } else {
      var n := |pages| - 1;
      PagedPrefix(sv, b, pages, n);
      HoldsBorder(sv, b, pages[..n]);
      NextBorder(sv, b, pages[n], n);
    }
  }

  /** An answer that points ahead ends at a border before the last. */
  lemma NextBorder(sv: Server, b: seq<nat>, x: Exchange, n: nat)
    requires WellMarked(Keyset, sv) && Borders(sv, b) && AnswersFrom(sv, b, x, n) && x.page.value.next != ""
    ensures n + 3 <= |b| && b[n + 1] <= |sv.inventory| && x.page.value.next == sv.marks[b[n + 1]]
    ensures sv.inventory[..b[n]] + x.page.value.items == sv.inventory[..b[n + 1]]
  {
  }

  lemma PagedServes(sv: Server, b: seq<nat>, pages: seq<Exchange>)
    requires |sv.marks| == |sv.inventory| + 1 && PagedBy(sv, b, pages)
    ensures Serves(sv, pages)
  {
    forall k | 0 <= k < |pages| && pages[k].page.Some? ensures exists i: nat, e: nat :: Answers(sv, pages[k], i, e) {
      assert AnswersFrom(sv, b, pages[k], k) && Answers(sv, pages[k], b[k], b[k + 1]);
    }
  }

  /** The tenant collector refuses an inventory if and only if the last page starts beyond the
      limit; otherwise it accepts it, however long that page is. */
  lemma TenantLimitIff(sv: Server, b: seq<nat>, pages: seq<Exchange>, selected: string, r: Outcome)
    requires WellMarked(Keyset, sv) && Borders(sv, b) && PagedBy(sv, b, pages)
    requires TenantRun(pages, selected, r) && r != Failed
    ensures r == if b[|b| - 2] > MAX_ITEMS then Stalled else TenantsOf(sv.inventory, selected)
  {
    hide WellMarked;
    hide Borders;
    hide PagedBy;
    hide Matching;
    LastExchange(sv, b, pages);
  }

  /** What the last answer of a transcript brings, in terms of the borders. */
  lemma LastExchange(sv: Server, b: seq<nat>, pages: seq<Exchange>)
    requires WellMarked(Keyset, sv) && Borders(sv, b) && PagedBy(sv, b, pages)
    requires pages != [] && pages[|pages| - 1].page.Some?
    requires Continued(Keyset, pages[..|pages| - 1]) && pages[|pages| - 1].after == NextAfter(pages[..|pages| - 1])
    ensures var n := |pages| - 1;
            var page := pages[n].page.value;
            && n + 1 < |b| && |Joined(pages)| == b[n + 1] && |Joined(pages[..n])| == b[n]
            && (page.next == "" <==> n + 2 == |b|) && (n + 2 < |b| ==> b[n + 1] <= b[|b| - 2])
            && (page.next == "" ==> Joined(pages) == sv.inventory)
            && (page.next != "" ==> !Stuck(Keyset, pages[n].after, page))
  {
    var n := |pages| - 1;
    PagedPrefix(sv, b, pages, n);
    hide WellMarked;
    hide Borders;
    HoldsBorder(sv, b, pages[..n]);
    PagedServes(sv, b, pages);
    LastPage(Keyset, sv, pages);
    LastBorder(sv, b, pages, n);
  }

  lemma PagedPrefix(sv: Server, b: seq<nat>, pages: seq<Exchange>, n: nat)
    requires PagedBy(sv, b, pages) && n <= |pages|
    ensures PagedBy(sv, b, pages[..n])
  {
    forall k | 0 <= k < n && pages[..n][k].page.Some? ensures AnswersFrom(sv, b, pages[..n][k], k) {
      assert pages[..n][k] == pages[k];
    }
  }

  /** The page from border `n` is the last one exactly when the inventory ends with it. */
  lemma LastBorder(sv: Server, b: seq<nat>, pages: seq<Exchange>, n: nat)
    requires WellMarked(Keyset, sv) && Borders(sv, b) && n == |pages| - 1 && n + 1 < |b| && b[n] <= |sv.inventory|
    requires AnswersFrom(sv, b, pages[n], n) && Joined(pages[..n]) == sv.inventory[..b[n]]
    ensures |Joined(pages)| == b[n + 1] && |Joined(pages[..n])| == b[n]
    ensures pages[n].page.value.next == "" <==> n + 2 == |b|
    ensures n + 2 < |b| ==> b[n + 1] <= b[|b| - 2]
  {
    assert b[n + 1] < |sv.inventory| ==> sv.marks[b[n + 1]] != sv.marks[0];
    assert n + 2 < |b| ==> b[n + 1] < b[|b| - 1];
  }

  /** What a server with these borders answers, request by request. */
  function Transcript(sv: Server, b: seq<nat>, n: nat): seq<Exchange>
    requires |sv.marks| == |sv.inventory| + 1 && n < |b|
    requires forall i :: 0 <= i < |b| ==> b[i] <= |sv.inventory|
    requires forall i :: 0 <= i < |b| - 1 ==> b[i] <= b[i + 1]
  {
    if n == 0 then []
    else
      Transcript(sv, b, n - 1) +
      [Exchange(sv.marks[b[n - 1]], Some(Page(sv.inventory[b[n - 1]..b[n]], if b[n] < |sv.inventory| then sv.marks[b[n]] else "")))]
  }

  ghost predicate TranscriptFits(sv: Server, b: seq<nat>) {
    && |sv.marks| == |sv.inventory| + 1
    && (forall i :: 0 <= i < |b| ==> b[i] <= |sv.inventory|)
    && (forall i :: 0 <= i < |b| - 1 ==> b[i] <= b[i + 1])
  }

  lemma BordersFit(sv: Server, b: seq<nat>)
    requires |sv.marks| == |sv.inventory| + 1 && Borders(sv, b)
    ensures TranscriptFits(sv, b)
  {
    forall i | 0 <= i < |b| ensures b[i] <= |sv.inventory| {
      assert i < |b| - 1 && sv.inventory != [] ==> b[i] < b[|b| - 1];
    }
  }

  /** A request and an answer within the client's bounds on cursors and pages. */
  predicate WithinPage(x: Exchange) {
    |x.after| <= 128 && x.page.Some? && |x.page.value.items| <= 500
  }

  predicate AllWithinPage(pages: seq<Exchange>) {
    forall i :: 0 <= i < |pages| ==> WithinPage(pages[i])
  }

  ghost predicate SmallPages(sv: Server, b: seq<nat>) {
    (forall j :: 0 <= j < |sv.marks| ==> |sv.marks[j]| <= 128) && forall i :: 0 <= i < |b| - 1 ==> b[i + 1] <= b[i] + 500
  }

  lemma {:induction false} PagesFit(sv: Server, b: seq<nat>, n: nat)
    requires TranscriptFits(sv, b) && n < |b| && SmallPages(sv, b)
    ensures AllWithinPage(Transcript(sv, b, n))
  {
    if n == 0 {
    } else {
      PagesFit(sv, b, n - 1);
      assert b[n - 1 + 1] <= b[n - 1] + 500;
    }
  }

  lemma {:induction false} TranscriptContinues(sv: Server, b: seq<nat>, n: nat)
    requires WellMarked(Keyset, sv) && Borders(sv, b) && TranscriptFits(sv, b) && n + 1 < |b|
    ensures var t := Transcript(sv, b, n);
            && |t| == n && Continued(Keyset, t) && Joined(t) == sv.inventory[..b[n]] && sv.marks[b[n]] == NextAfter(t)
  {
    if n == 0 {
    } else {
      TranscriptContinues(sv, b, n - 1);
      var before, t := Transcript(sv, b, n - 1), Transcript(sv, b, n);
      Extends(before, t[n - 1]);
      PageGoesOn(sv, b, n, t[n - 1]);
      assert sv.inventory[..b[n - 1]] + sv.inventory[b[n - 1]..b[n]] == sv.inventory[..b[n]];
    }
  }

  /** A page before the last is not empty and points ahead. */
  lemma PageGoesOn(sv: Server, b: seq<nat>, n: nat, x: Exchange)
    requires WellMarked(Keyset, sv) && Borders(sv, b) && TranscriptFits(sv, b) && 0 < n && n + 1 < |b|
    requires x == Exchange(sv.marks[b[n - 1]], Some(Page(sv.inventory[b[n - 1]..b[n]], if b[n] < |sv.inventory| then sv.marks[b[n]] else "")))
    ensures x.page.value.next == sv.marks[b[n]] != "" && !Stuck(Keyset, x.after, x.page.value)
  {
    assert b[n] < b[|b| - 1] && b[n - 1] < b[n];
    assert sv.marks[0] != sv.marks[b[n]];
    LessTrichotomy(sv.marks[b[n - 1]], sv.marks[b[n]]);
  }

  /** The exchange with such a server is a run of the tenant collector that returns the whole
      inventory, over the limit or not. */
  lemma TranscriptIsAccepted(sv: Server, b: seq<nat>)
    requires WellMarked(Keyset, sv) && Borders(sv, b) && TranscriptFits(sv, b) && b[|b| - 2] <= MAX_ITEMS
    ensures TenantRun(Transcript(sv, b, |b| - 1), "", Collected(sv.inventory))
  {
    var n := |b| - 2;
    TranscriptContinues(sv, b, n);
    var before, t := Transcript(sv, b, n), Transcript(sv, b, n + 1);
    var x := Exchange(sv.marks[b[n]], Some(Page(sv.inventory[b[n]..b[n + 1]], "")));
    assert t == before + [x];
    assert sv.inventory[..b[n]] + sv.inventory[b[n]..b[n + 1]] == sv.inventory;
    assert |sv.inventory[..b[n]]| <= MAX_ITEMS;
    LastPageAccepts(sv.inventory, before, x);
  }

  lemma LastPageAccepts(inventory: seq<Item>, before: seq<Exchange>, x: Exchange)
    requires Continued(Keyset, before) && |Joined(before)| <= MAX_ITEMS && x.after == NextAfter(before)
    requires x.page.Some? && x.page.value.next == "" && Joined(before) + x.page.value.items == inventory
    ensures TenantRun(before + [x], "", Collected(inventory))
  {
    Extends(before, x);
    MatchingAll(inventory);
  }

  /** `n` in decimal, on `width` digits. */
  function Numeral(width: nat, n: nat): (r: string)
    ensures |r| == width
  {
    if width == 0 then "" else Numeral(width - 1, n / 10) + ["0123456789"[n % 10]]
  }

  lemma {:induction false} LessAppends(a: string, b: string, c: char, d: char)
    requires |a| == |b| && (Less(a, b) || (a == b && c < d))
    ensures Less(a + [c], b + [d])
  {
    if a == "" {
      assert a + [c] == [c] && b + [d] == [d];
    } else {
      if a[0] == b[0] {
        LessAppends(a[1..], b[1..], c, d);
      }
      assert (a + [c])[1..] == a[1..] + [c] && (b + [d])[1..] == b[1..] + [d];
    }
  }

  function Power10(n: nat): (r: nat)
    ensures r > 0
  {
    if n == 0 then 1 else 10 * Power10(n - 1)
  }

  lemma {:induction false} NumeralsAscend(width: nat, m: nat, n: nat)
    requires m < n < Power10(width)
    ensures Less(Numeral(width, m), Numeral(width, n))
  {
    if width == 0 {
    } else {
      var a, b := Numeral(width - 1, m / 10), Numeral(width - 1, n / 10);
      if m / 10 < n / 10 {
        NumeralsAscend(width - 1, m / 10, n / 10);
      }
      LessAppends(a, b, "0123456789"[m % 10], "0123456789"[n % 10]);
    }
  }

  function TenantName(i: nat): (id: string)
    ensures |id| == 6
  {
    "t" + Numeral(5, i)
  }

  lemma TenantNamesAscend(i: nat, j: nat)
    requires i < j < 100000
    ensures Less(TenantName(i), TenantName(j))
  {
    assert Power10(5) == 100000;
    NumeralsAscend(5, i, j);
    assert TenantName(i)[1..] == Numeral(5, i) && TenantName(j)[1..] == Numeral(5, j);
  }

  /** 33,000 tenants, named in ascending order. */
  lemma ManyTenants() returns (inventory: seq<Item>)
    ensures |inventory| == 33000 && StrictlyAscending(Ids(inventory)) && WellMarked(Keyset, KeysetServer(inventory))
    ensures forall i :: 0 <= i < |inventory| ==> |inventory[i].id| == 6
    ensures var sv := KeysetServer(inventory); forall j :: 0 <= j < |sv.marks| ==> |sv.marks[j]| <= 128
  {
    inventory := seq(33000, i requires 0 <= i < 33000 => Item(TenantName(i), ""));
    var ids := Ids(inventory);
    forall i, j | 0 <= i < j < |ids| ensures Less(ids[i], ids[j]) {
      TenantNamesAscend(i, j);
    }
    assert forall i :: 0 <= i < |ids| ==> |ids[i]| == 6;
    assert "" !in ids;
    KeysetServerIsWellMarked(inventory);
  }

  lemma PagesOf500(inventory: seq<Item>) returns (b: seq<nat>)
    requires |inventory| == 33000
    ensures Borders(KeysetServer(inventory), b) && |b| == 67 && b[65] == 32500
    ensures forall i :: 0 <= i < |b| - 1 ==> b[i + 1] <= b[i] + 500
  {
    b := seq(67, i requires 0 <= i < 67 => 500 * i);
  }

  /** Such an input exists, with IDs that fit a page cursor of at most 128 bytes: 33,000 tenants in
      pages of 500 are accepted, above the limit of 32,768. */
  lemma OverLimitIsAccepted() returns (inventory: seq<Item>, pages: seq<Exchange>)
    ensures |inventory| == 33000 > MAX_ITEMS && StrictlyAscending(Ids(inventory))
    ensures forall i :: 0 <= i < |inventory| ==> 0 < |inventory[i].id| <= 128
    ensures AllWithinPage(pages)
    ensures TenantRun(pages, "", Collected(inventory))
  {
    inventory := ManyTenants();
    var b := PagesOf500(inventory);
    var sv := KeysetServer(inventory);
    BordersFit(sv, b);
    TranscriptIsAccepted(sv, b);
    PagesFit(sv, b, 66);
    pages := Transcript(sv, b, 66);
  }

  lemma {:induction false} MatchingAll(items: seq<Item>)
    ensures Matching(items, "") == items
  {
    if items == [] {
    } else {
      MatchingAll(items[..|items| - 1]);
      assert items[..|items| - 1] + [items[|items| - 1]] == items;
    }
  }

  lemma {:induction false} MatchingNone(items: seq<Item>, selected: string)
    requires selected != "" && forall i :: 0 <= i < |items| ==> items[i].id != selected
    ensures Matching(items, selected) == []
  {
    if items == [] {
    } else {
      MatchingNone(items[..|items| - 1], selected);
    }
  }

  lemma {:induction false} MatchingOne(items: seq<Item>, i: nat)
    requires i < |items| && items[i].id != ""
    requires forall j :: 0 <= j < |items| && j != i ==> items[j].id != items[i].id
    ensures Matching(items, items[i].id) == [items[i]]
  {
    var k := |items| - 1;
    if i == k {
      MatchingNone(items[..k], items[i].id);
    } else {
      MatchingOne(items[..k], i);
    }
  }

  /** With distinct tenant IDs the selection returns the selected tenant and nothing else, the
      whole inventory when none is selected, and an error when the tenant is not there. */
  lemma SelectionIsExact(items: seq<Item>, selected: string)
    requires Distinct(Ids(items))
    ensures TenantsOf(items, "") == Collected(items)
    ensures selected != "" ==>
              forall i :: 0 <= i < |items| && items[i].id == selected ==> TenantsOf(items, selected) == Collected([items[i]])
    ensures selected != "" && selected !in Ids(items) ==> TenantsOf(items, selected) == NotVisible
  {
    MatchingAll(items);
    var ids := Ids(items);
    assert forall i :: 0 <= i < |items| ==> ids[i] == items[i].id;
    if selected != "" && selected !in ids {
      MatchingNone(items, selected);
    }
    forall i | selected != "" && 0 <= i < |items| && items[i].id == selected
      ensures TenantsOf(items, selected) == Collected([items[i]])
    {
      forall j | 0 <= j < |items| && j != i ensures items[j].id != items[i].id {
        assert ids[i] != ids[j];
      }
      MatchingOne(items, i);
    }
  }
}
