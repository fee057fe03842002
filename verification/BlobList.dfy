/** The portable listings over a driver: Bucket.ListPage and ListIterator of blob/blob.go. */
module BlobList {
  import opened Wrappers
  import opened Lex
  import opened Listing

  /** The pageToken that asks ListPage for the first page; drivers are given the empty token instead. */
  const FIRST_PAGE_TOKEN := "first page"

  type PageFunction = (string, nat) -> ListPage

  /** What a driver promises about its pages: each is the next stretch of one listing, no longer than
      asked for, possibly shorter, even empty. `at` is where each token stands in the listing; `left`
      bounds the fetches still to come. An empty next token means that the listing is done. */
  ghost predicate MeetsContract(list: PageFunction, all: seq<ListObject>, at: map<string, nat>,
      left: map<string, nat>)
  {
    "" in at && at[""] == 0 && at.Keys == left.Keys
    && (forall token :: token in at ==> at[token] <= |all|)
    && forall token: string, size: nat :: token in at ==> PageFits(list(token, size), token, size, all, at, left)
  }

  ghost predicate PageFits(page: ListPage, token: string, size: nat, all: seq<ListObject>, at: map<string, nat>,
      left: map<string, nat>)
    requires token in at && at.Keys == left.Keys
  {
    var end := at[token] + |page.objects|;
    end <= |all| && page.objects == all[at[token]..end]
    && (size > 0 ==> |page.objects| <= size)
    && if page.nextPageToken == "" then end == |all|
       else page.nextPageToken in at && at[page.nextPageToken] == end && left[page.nextPageToken] < left[token]
  }

  ghost function MemblobPages(blobs: map<string, Blob>, prefix: string, delim: string): PageFunction {
    (token: string, size: nat) => PageOf(blobs, ListOptions(prefix, delim, size, token))
  }

  /** The whole listing of an in-memory bucket. */
  ghost function MemblobListing(blobs: map<string, Blob>, prefix: string, delim: string): seq<ListObject> {
    ObjectsFor(blobs, prefix, delim, SortSet(Entries(blobs.Keys, prefix, delim)))
  }

  /** The in-memory bucket keeps this promise, unless it lists the empty key and something else. */
  lemma MemblobMeetsContract(blobs: map<string, Blob>, prefix: string, delim: string)
    returns (at: map<string, nat>, left: map<string, nat>)
    requires "" in Entries(blobs.Keys, prefix, delim) ==> Entries(blobs.Keys, prefix, delim) == {""}
    ensures MeetsContract(MemblobPages(blobs, prefix, delim), MemblobListing(blobs, prefix, delim), at, left)
    ensures at.Keys == Entries(blobs.Keys, prefix, delim) + {""}
  {
    hide Less, SortSet, Entries, Above, PageOf, PageFits, ObjectsFor;
    var names := Entries(blobs.Keys, prefix, delim);
    var n := |SortSet(names)|;
    forall token | token in names + {""} ensures 0 <= n - |SortSet(Above(names, token))| {
      AboveIsSuffix(names, token);
    }
    at := map token | token in names + {""} :: n - |SortSet(Above(names, token))|;
    left := map token | token in names + {""} :: |SortSet(Above(names, token))|;
    AboveNothing(names);
    forall token: string, size: nat | token in at
      ensures PageFits(MemblobPages(blobs, prefix, delim)(token, size), token, size,
        MemblobListing(blobs, prefix, delim), at, left)
    {
      MemblobPageFits(blobs, ListOptions(prefix, delim, size, token), at, left);
    }
  }

  /** If it does, there is no listing for which it keeps the promise: the pages of one and of two names disagree. */
  lemma MemblobBreaksContract(blobs: map<string, Blob>, prefix: string, delim: string,
      all: seq<ListObject>, at: map<string, nat>, left: map<string, nat>)
    requires "" in Entries(blobs.Keys, prefix, delim) && Entries(blobs.Keys, prefix, delim) != {""}
    ensures !MeetsContract(MemblobPages(blobs, prefix, delim), all, at, left)
  {
    hide Less, SortSet, Collapse, InDir, ObjectFor, ObjectsFor, Entries, Above;
    var names, list := Entries(blobs.Keys, prefix, delim), MemblobPages(blobs, prefix, delim);
    AboveNothing(names);
    EmptyNameFirst(names);
    StoppedPage(names, 1);
    if MeetsContract(list, all, at, left) { FirstPagesAgree(list, all, at, left); }
  }

  lemma FirstPagesAgree(list: PageFunction, all: seq<ListObject>, at: map<string, nat>, left: map<string, nat>)
    requires MeetsContract(list, all, at, left)
    ensures list("", 1).nextPageToken == "" ==> |list("", 2).objects| <= |list("", 1).objects|
  {
    assert PageFits(list("", 1), "", 1, all, at, left);
    assert PageFits(list("", 2), "", 2, all, at, left);
  }

  lemma AboveNothing(names: set<string>)
    ensures Above(names, "") == names
  {
  }

  lemma AboveIsSuffix(names: set<string>, token: string)
    requires token == "" || token in names
    ensures
      var sorted, above := SortSet(names), SortSet(Above(names, token));
      |above| <= |sorted| && above == sorted[|sorted|-|above|..]
  {
    hide Less, SortSet;
    var sorted := SortSet(names);
    if token == "" {
      assert Above(names, token) == names;
    } else {
      assert token in sorted;
      var n :| 0 <= n < |sorted| && sorted[n] == token;
      SortedSuffix(sorted, n + 1, Above(names, token));
    }
  }

  lemma ObjectsForSlice(blobs: map<string, Blob>, prefix: string, delim: string, names: seq<string>, i: nat, j: nat)
    requires i <= j <= |names|
    ensures ObjectsFor(blobs, prefix, delim, names)[i..j] == ObjectsFor(blobs, prefix, delim, names[i..j])
  {
  }

  /** Where each token stands in a sorted listing, and how much is left after it. */
  ghost predicate Placed(names: set<string>, at: map<string, nat>, left: map<string, nat>) {
    at.Keys == left.Keys == names + {""}
    && forall t :: t in names + {""} ==>
      at[t] + |SortSet(Above(names, t))| == |SortSet(names)| && left[t] == |SortSet(Above(names, t))|
  }

  lemma PagePlaced(names: set<string>, token: string, size: nat, at: map<string, nat>, left: map<string, nat>)
    requires size > 0 && !StopsEarly(names, token, size) && Placed(names, at, left) && token in names + {""}
    ensures
      var page, next, sorted := PageNames(names, token, size), PageToken(names, token, size), SortSet(names);
      at[token] + |page| <= |sorted| && page == sorted[at[token]..at[token]+|page|] && |page| <= size
      && if next == "" then at[token] + |page| == |sorted|
         else next in names && at[next] == at[token] + |page| && left[next] < left[token]
  {
    hide Less, SortSet, Above, PageNames, PageToken, StopsEarly;
    PageThenRest(names, token, size);
    AboveIsSuffix(names, token);
  }

  lemma MemblobPageFits(blobs: map<string, Blob>, opts: ListOptions, at: map<string, nat>, left: map<string, nat>)
    requires "" in Entries(blobs.Keys, opts.prefix, opts.delimiter) ==>
      Entries(blobs.Keys, opts.prefix, opts.delimiter) == {""}
    requires Placed(Entries(blobs.Keys, opts.prefix, opts.delimiter), at, left) && opts.pageToken in at
    ensures PageFits(PageOf(blobs, opts), opts.pageToken, opts.pageSize,
      MemblobListing(blobs, opts.prefix, opts.delimiter), at, left)
  {
    hide Less, SortSet, Collapse, InDir, ObjectFor, ObjectsFor, Entries, Above, PageNames, PageToken, StopsEarly;
    var names := Entries(blobs.Keys, opts.prefix, opts.delimiter);
    var sorted, token, size := SortSet(names), opts.pageToken, EffectiveSize(opts);
    NeverStops(names, token, size);
    PagePlaced(names, token, size, at, left);
    hide Placed;
    ObjectsForSlice(blobs, opts.prefix, opts.delimiter, sorted, at[token], at[token] + |PageNames(names, token, size)|);
  }

  lemma NeverStops(names: set<string>, token: string, size: nat)
    requires "" in names ==> names == {""}
    ensures !StopsEarly(names, token, size)
  {
  }

  // ---------------------------------------------------------------- ListPage

  datatype PageResult = InvalidArgument | EOF | Page(objects: seq<ListObject>, nextPageToken: string)

  /** Where ListPage starts reading: the literal token stands for the start, whatever the driver means by it. */
  function Start(at: map<string, nat>, pageToken: string): nat
    requires pageToken == FIRST_PAGE_TOKEN || pageToken in at
    requires "" in at
  {
    if pageToken == FIRST_PAGE_TOKEN then at[""] else at[pageToken]
  }

  /** What a driver gives from a token on, until enough objects are there or its listing ends: the objects, and
      the token for what follows. */
  ghost function Gathered(list: PageFunction, token: string, need: nat,
      all: seq<ListObject>, at: map<string, nat>, left: map<string, nat>): (r: (seq<ListObject>, string))
    requires MeetsContract(list, all, at, left) && token in at
    decreases left[token]
  {
    if need == 0 then ([], token) else
      assert PageFits(list(token, need), token, need, all, at, left);
      var p := list(token, need);
      if p.nextPageToken == "" then (p.objects, "") else
        var r := Gathered(list, p.nextPageToken, need - |p.objects|, all, at, left);
        (p.objects + r.0, r.1)
  }

  ghost function GatheredOnto(got: seq<ListObject>, list: PageFunction, token: string, need: nat,
      all: seq<ListObject>, at: map<string, nat>, left: map<string, nat>): (seq<ListObject>, string)
    requires MeetsContract(list, all, at, left) && token in at
  {
    var r := Gathered(list, token, need, all, at, left);
    (got + r.0, r.1)
  }

  lemma PageFitsAt(list: PageFunction, token: string, size: nat,
      all: seq<ListObject>, at: map<string, nat>, left: map<string, nat>)
    requires MeetsContract(list, all, at, left) && token in at && at.Keys == left.Keys
    ensures PageFits(list(token, size), token, size, all, at, left)
  {
    hide PageFits;
  }

  lemma Places(list: PageFunction, all: seq<ListObject>, at: map<string, nat>, left: map<string, nat>)
    requires MeetsContract(list, all, at, left)
    ensures "" in at && at[""] == 0 && at.Keys == left.Keys && forall t :: t in at ==> at[t] <= |all|
  {
    hide PageFits;
  }

  lemma GatheredStep(got: seq<ListObject>, list: PageFunction, token: string, need: nat,
      all: seq<ListObject>, at: map<string, nat>, left: map<string, nat>)
    requires MeetsContract(list, all, at, left) && token in at && need > 0
    ensures
      var p := list(token, need);
      |p.objects| <= need && (p.nextPageToken == "" || (p.nextPageToken in at && left[p.nextPageToken] < left[token]))
      && GatheredOnto(got, list, token, need, all, at, left)
      == if p.nextPageToken == "" then (got + p.objects, "")
         else GatheredOnto(got + p.objects, list, p.nextPageToken, need - |p.objects|, all, at, left)
  {
    hide MeetsContract;
    Places(list, all, at, left);
    assert PageFits(list(token, need), token, need, all, at, left) by { PageFitsAt(list, token, need, all, at, left); }
    var p := list(token, need);
    if p.nextPageToken != "" {
      var r := Gathered(list, p.nextPageToken, need - |p.objects|, all, at, left);
      assert (got + p.objects) + r.0 == got + (p.objects + r.0);
    }
  }

  lemma GatheredFirst(list: PageFunction, token: string, need: nat,
      all: seq<ListObject>, at: map<string, nat>, left: map<string, nat>)
    requires MeetsContract(list, all, at, left) && token in at
    ensures GatheredOnto([], list, token, need, all, at, left) == Gathered(list, token, need, all, at, left)
  {
    hide Gathered;
    assert [] + Gathered(list, token, need, all, at, left).0 == Gathered(list, token, need, all, at, left).0;
  }

  lemma GatheredNone(got: seq<ListObject>, list: PageFunction, token: string,
      all: seq<ListObject>, at: map<string, nat>, left: map<string, nat>)
    requires MeetsContract(list, all, at, left) && token in at
    ensures GatheredOnto(got, list, token, 0, all, at, left) == (got, token)
  {
    assert got + [] == got;
  }

  /** What is gathered is the stretch of the listing from the token's place on. */
  lemma {:induction false} GatheredIs(list: PageFunction, token: string, need: nat,
      all: seq<ListObject>, at: map<string, nat>, left: map<string, nat>)
    requires MeetsContract(list, all, at, left) && token in at
    ensures at.Keys == left.Keys && at[token] <= |all|
    ensures
      var r := Gathered(list, token, need, all, at, left);
      var end := Min(at[token] + need, |all|);
      r.0 == all[at[token]..end]
      && if need == 0 then r.1 == token
         else if r.1 == "" then end == |all|
         else r.1 in at && at[r.1] == end && left[r.1] < left[token]
    decreases left[token]
  {
    hide MeetsContract;
    Places(list, all, at, left);
    if need > 0 {
      PageFitsAt(list, token, need, all, at, left);
      var p := list(token, need);
      if p.nextPageToken != "" {
        GatheredIs(list, p.nextPageToken, need - |p.objects|, all, at, left);
        var end := Min(at[token] + need, |all|);
        assert all[at[token]..end] == all[at[token]..at[token]+|p.objects|] + all[at[token]+|p.objects|..end];
      }
    }
  }

  /** A page of exactly pageSize objects, unless the listing ends before. */
  method ListPage(list: PageFunction, pageToken: string, pageSize: int,
      ghost all: seq<ListObject>, ghost at: map<string, nat>, ghost left: map<string, nat>)
    returns (r: PageResult)
    requires MeetsContract(list, all, at, left)
    requires pageToken == "" || pageToken == FIRST_PAGE_TOKEN || pageToken in at
    ensures pageSize <= 0 ==> r == InvalidArgument
    ensures pageSize > 0 && pageToken == "" ==> r == EOF
    ensures pageSize > 0 && pageToken != "" ==>
      var start := Start(at, pageToken);
      var end := Min(start + pageSize, |all|);
      start <= end && r.Page? && r.objects == all[start..end]
      && if r.nextPageToken == "" then end == |all|
         else r.nextPageToken in at && at[r.nextPageToken] == end
              && left[r.nextPageToken] < left[if pageToken == FIRST_PAGE_TOKEN then "" else pageToken]
    ensures pageSize > 0 && pageToken != "" ==>
      (r.objects, r.nextPageToken)
      == Gathered(list, if pageToken == FIRST_PAGE_TOKEN then "" else pageToken, pageSize, all, at, left)
  {
    if pageSize <= 0 { return InvalidArgument; }
    if pageToken == "" { return EOF; }
    hide Gathered, GatheredOnto, MeetsContract;
    var token := if pageToken == FIRST_PAGE_TOKEN then "" else pageToken;
    Places(list, all, at, left);
    GatheredIs(list, token, pageSize, all, at, left);
    GatheredFirst(list, token, pageSize, all, at, left);
    ghost var whole := Gathered(list, token, pageSize, all, at, left);
    var size: nat := pageSize;
    var retval: seq<ListObject> := [];
    while |retval| < pageSize
      invariant size == pageSize - |retval| && token in at
      invariant GatheredOnto(retval, list, token, size, all, at, left) == whole
      decreases left[token]
    {
      GatheredStep(retval, list, token, size, all, at, left);
      var p := list(token, size);
      retval := retval + p.objects;
      size := pageSize - |retval|;
      token := p.nextPageToken;
      if token == "" { break; }
    }
    if token in at && size == 0 { GatheredNone(retval, list, token, all, at, left); }
    r := Page(retval, token);
  }

  /** A listing as the documentation tells clients to go through it, page by page with one page size. */
  datatype Listed = Listed(list: PageFunction, pageSize: nat, all: seq<ListObject>, at: map<string, nat>,
    left: map<string, nat>)

  ghost predicate Good(l: Listed) {
    l.pageSize > 0 && MeetsContract(l.list, l.all, l.at, l.left)
  }

  /** The token after n pages; it stays empty once it is. */
  ghost function TokenAfter(l: Listed, n: nat): (token: string)
    requires Good(l)
    ensures token == "" || token == FIRST_PAGE_TOKEN || token in l.at
  {
    if n == 0 then FIRST_PAGE_TOKEN else NextToken(l, TokenAfter(l, n - 1))
  }

  ghost function NextToken(l: Listed, token: string): (next: string)
    requires Good(l) && (token == "" || token == FIRST_PAGE_TOKEN || token in l.at)
    ensures next == "" || next in l.at
  {
    if token == "" then "" else
      var driver := if token == FIRST_PAGE_TOKEN then "" else token;
      GatheredIs(l.list, driver, l.pageSize, l.all, l.at, l.left);
      Gathered(l.list, driver, l.pageSize, l.all, l.at, l.left).1
  }

  /** No token that ListPage returns reads "first page". */
  ghost predicate NeverLiteral(l: Listed)
    requires Good(l)
  {
    forall n: nat :: n > 0 ==> TokenAfter(l, n) != FIRST_PAGE_TOKEN
  }

  ghost predicate EndsAfter(l: Listed, n: nat)
    requires Good(l)
  {
    TokenAfter(l, n) == ""
  }

  /** Going through the pages ends. */
  ghost predicate Ends(l: Listed)
    requires Good(l)
  {
    exists n: nat :: EndsAfter(l, n)
  }

  lemma {:induction false} FewerLeft(l: Listed, n: nat)
    requires Good(l) && NeverLiteral(l) && n > 0
    ensures TokenAfter(l, n) == "" || (TokenAfter(l, n) in l.at && l.left[TokenAfter(l, n)] + n <= l.left[""])
  {
    hide Gathered;
    var before := TokenAfter(l, n - 1);
    if n == 1 {
      GatheredIs(l.list, "", l.pageSize, l.all, l.at, l.left);
    } else {
      FewerLeft(l, n - 1);
      assert before != FIRST_PAGE_TOKEN;
      if before != "" { GatheredIs(l.list, before, l.pageSize, l.all, l.at, l.left); }
    }
  }

  /** After the literal, everything starts again. */
  lemma {:induction false} StartsAgain(l: Listed, m: nat, k: nat)
    requires Good(l) && TokenAfter(l, m) == FIRST_PAGE_TOKEN
    ensures TokenAfter(l, m + k) == TokenAfter(l, k)
  {
    hide Gathered;
    if k > 0 { StartsAgain(l, m, k - 1); }
  }

  lemma {:induction false} StaysEmpty(l: Listed, n: nat, k: nat)
    requires Good(l) && TokenAfter(l, n) == ""
    ensures TokenAfter(l, n + k) == ""
  {
    hide Gathered;
    if k > 0 { StaysEmpty(l, n, k - 1); }
  }

  lemma {:induction false} AgainAndAgain(l: Listed, m: nat, j: nat)
    requires Good(l) && TokenAfter(l, m) == FIRST_PAGE_TOKEN
    ensures TokenAfter(l, j * m) == FIRST_PAGE_TOKEN
  {
    hide Gathered;
    if j > 0 {
      AgainAndAgain(l, m, j - 1);
      StartsAgain(l, (j - 1) * m, m);
      assert (j - 1) * m + m == j * m;
    }
  }

  /** Over any driver that keeps the contract, short pages or not, going through the pages ends exactly when no
      token on the way is the literal for the first page; otherwise the same pages come again for ever. */
  lemma EndsUnlessLiteral(l: Listed)
    requires Good(l)
    ensures Ends(l) <==> NeverLiteral(l)
  {
    if NeverLiteral(l) {
      FewerLeft(l, l.left[""] + 1);
      assert EndsAfter(l, l.left[""] + 1);
    } else {
      var m: nat :| m > 0 && TokenAfter(l, m) == FIRST_PAGE_TOKEN;
      forall n: nat ensures !EndsAfter(l, n) {
        AgainAndAgain(l, m, n);
        assert n * m == n + n * (m - 1) && n * (m - 1) >= 0;
        if TokenAfter(l, n) == "" { StaysEmpty(l, n, n * (m - 1)); }
      }
    }
  }

  /** The loop that ListPage's documentation describes: follow the tokens until one is empty. */
  method CollectPages(list: PageFunction, pageSize: int,
      ghost all: seq<ListObject>, ghost at: map<string, nat>, ghost left: map<string, nat>)
    returns (got: seq<ListObject>)
    requires pageSize > 0 && Good(Listed(list, pageSize, all, at, left))
    requires NeverLiteral(Listed(list, pageSize, all, at, left))
    ensures got == all
  {
    hide Gathered, PageFits;
    ghost var l := Listed(list, pageSize, all, at, left);
    var r := ListPage(list, FIRST_PAGE_TOKEN, pageSize, all, at, left);
    got := r.objects;
    var token := r.nextPageToken;
    ghost var n := 1;
    assert TokenAfter(l, 0) == FIRST_PAGE_TOKEN;
    while token != ""
      invariant n > 0 && token == TokenAfter(l, n)
      invariant token == "" || token in at
      invariant got == all[..if token == "" then |all| else at[token]]
      decreases if token == "" then 0 else left[token] + 1
    {
      r := ListPage(list, token, pageSize, all, at, left);
      got := got + r.objects;
      token := r.nextPageToken;
      n := n + 1;
    }
  }

  // ---------------------------------------------------------------- the loop over the in-memory bucket

  /** Going through the pages of an in-memory bucket. */
  ghost predicate OverMemblob(l: Listed, blobs: map<string, Blob>, prefix: string, delim: string) {
    Good(l) && l.list == MemblobPages(blobs, prefix, delim)
  }

  /** Page j ends on the literal, and there are more names. */
  ghost predicate EndsOnLiteral(names: seq<string>, size: nat, j: nat) {
    0 < j * size < |names| && names[j * size - 1] == FIRST_PAGE_TOKEN
  }

  /** The token after j pages: the last name of page j, when there are more. */
  ghost predicate TokenIs(token: string, names: seq<string>, size: nat, j: nat) {
    if j == 0 then token == FIRST_PAGE_TOKEN
    else if 0 < j * size < |names| then token == names[j * size - 1]
    else token == ""
  }

  /** One page of a bucket, of full size, needs one call of the driver. */
  lemma MemblobNext(l: Listed, blobs: map<string, Blob>, prefix: string, delim: string, token: string)
    requires OverMemblob(l, blobs, prefix, delim) && token in l.at
    ensures Gathered(l.list, token, l.pageSize, l.all, l.at, l.left).1
      == PageToken(Entries(blobs.Keys, prefix, delim), token, l.pageSize)
  {
    hide Less, SortSet, Above, Entries, ObjectsFor, MeetsContract;
    Places(l.list, l.all, l.at, l.left);
    PageFitsAt(l.list, token, l.pageSize, l.all, l.at, l.left);
    var p := l.list(token, l.pageSize);
    if p.nextPageToken != "" {
      assert |p.objects| == l.pageSize;
      assert Gathered(l.list, p.nextPageToken, 0, l.all, l.at, l.left).1 == p.nextPageToken;
    }
  }

  /** What comes after the first k names, by the token for that place. */
  lemma AfterFirst(names: set<string>, token: string, k: nat, size: nat)
    requires size > 0 && ("" in names ==> names == {""}) && k <= |SortSet(names)|
    requires if k == 0 then token == "" else token == SortSet(names)[k-1] && k < |SortSet(names)|
    ensures PageToken(names, token, size)
      == if k + size < |SortSet(names)| then SortSet(names)[k+size-1] else ""
    ensures k > 0 ==> token != ""
  {
    hide Less, SortSet;
    var sorted := SortSet(names);
    if k == 0 {
      AboveNothing(names);
    } else {
      assert token in sorted;
      OnlyEmpty(names);
      SortedSuffix(sorted, k, Above(names, token));
    }
  }

  lemma OnlyEmpty(names: set<string>)
    requires "" in names ==> names == {""}
    ensures "" in names ==> |SortSet(names)| == 1
    ensures forall i :: 0 <= i < |SortSet(names)| && i + 1 < |SortSet(names)| ==> SortSet(names)[i] != ""
  {
    hide Less, SortSet;
    if "" in names { EmptyNameFirst(names); }
    assert forall i :: 0 <= i < |SortSet(names)| ==> SortSet(names)[i] in SortSet(names);
  }

  /** As long as no page ends on the literal, the tokens are the last names of the pages. */
  lemma {:induction false} TokensAreNames(l: Listed, blobs: map<string, Blob>, prefix: string, delim: string, j: nat)
    requires OverMemblob(l, blobs, prefix, delim)
    requires forall i: nat :: i < j ==> !EndsOnLiteral(SortSet(Entries(blobs.Keys, prefix, delim)), l.pageSize, i)
    ensures TokenIs(TokenAfter(l, j), SortSet(Entries(blobs.Keys, prefix, delim)), l.pageSize, j)
  {
    hide Less, SortSet, Above, Entries, PageToken, MeetsContract, Gathered, MemblobPages;
    if j > 0 {
      TokensAreNames(l, blobs, prefix, delim, j - 1);
      var names, n := Entries(blobs.Keys, prefix, delim), l.pageSize;
      var before, k := TokenAfter(l, j - 1), (j - 1) * n;
      assert k + n == j * n && k >= 0 && (j > 1 ==> k > 0);
      assert !EndsOnLiteral(SortSet(names), n, j - 1);
      if "" in names && names != {""} { MemblobBreaksContract(blobs, prefix, delim, l.all, l.at, l.left); }
      Places(l.list, l.all, l.at, l.left);
      OnlyEmpty(names);
      if before != "" {
        var driver := if j == 1 then "" else before;
        assert driver in l.at && (j > 1 ==> before != FIRST_PAGE_TOKEN);
        if k <= |SortSet(names)| { AfterFirst(names, driver, k, n); }
        MemblobNext(l, blobs, prefix, delim, driver);
      }
    }
  }

  lemma {:induction false} FirstOnLiteral(names: seq<string>, size: nat, j: nat) returns (i: nat)
    requires EndsOnLiteral(names, size, j)
    ensures EndsOnLiteral(names, size, i) && forall k: nat :: k < i ==> !EndsOnLiteral(names, size, k)
    decreases j
  {
    if k: nat :| k < j && EndsOnLiteral(names, size, k) {
      i := FirstOnLiteral(names, size, k);
    } else {
      i := j;
    }
  }

  /** For the in-memory bucket that is a matter of what it stores: going through the pages ends exactly when no page,
      counted from the start, ends on a name that reads "first page" while there are more names. */
  lemma MemblobEnds(l: Listed, blobs: map<string, Blob>, prefix: string, delim: string)
    requires OverMemblob(l, blobs, prefix, delim)
    ensures
      Ends(l) <==> forall j: nat :: !EndsOnLiteral(SortSet(Entries(blobs.Keys, prefix, delim)), l.pageSize, j)
  {
    hide SortSet, Entries, MeetsContract, TokenAfter, Ends, MemblobPages;
    EndsUnlessLiteral(l);
    var names := SortSet(Entries(blobs.Keys, prefix, delim));
    if j: nat :| EndsOnLiteral(names, l.pageSize, j) {
      var i := FirstOnLiteral(names, l.pageSize, j);
      TokensAreNames(l, blobs, prefix, delim, i);
      assert i > 0 && TokenAfter(l, i) == FIRST_PAGE_TOKEN;
    } else {
      forall n: nat | n > 0 ensures TokenAfter(l, n) != FIRST_PAGE_TOKEN {
        TokensAreNames(l, blobs, prefix, delim, n);
        assert !EndsOnLiteral(names, l.pageSize, n);
      }
    }
  }

  lemma TwoNames()
    ensures
      var names := {"first page", "g"};
      SortSet(Above(names, "")) == ["first page", "g"] && SortSet(names) == ["first page", "g"]
  {
    var names := {"first page", "g"};
    assert Above(names, "") == names;
    assert Sorted(["first page", "g"]);
    SortSetUnique(names, ["first page", "g"]);
  }

  lemma LiteralPage(b: Blob)
    ensures
      var blobs := map["first page" := b, "g" := b];
      var p := MemblobPages(blobs, "", "")("", 1);
      Entries(blobs.Keys, "", "") == {"first page", "g"} && |p.objects| == 1 && p.nextPageToken == FIRST_PAGE_TOKEN
  {
    hide Less, SortSet, Above, ObjectFor;
    assert Collapse("", "", "first page") == "first page" && Collapse("", "", "g") == "g";
    assert Entries({"first page", "g"}, "", "") == {"first page", "g"};
    TwoNames();
  }

  /** Such a token does come up: an in-memory bucket holding "first page" and "g", listed by pages of one. */
  lemma LiteralTokenFromMemblob(b: Blob) returns (l: Listed)
    ensures Good(l) && l.list == MemblobPages(map["first page" := b, "g" := b], "", "") && l.pageSize == 1
    ensures TokenAfter(l, 1) == FIRST_PAGE_TOKEN && !Ends(l)
  {
    hide MemblobPages, MemblobListing, Entries, MeetsContract, Ends, NeverLiteral;
    var blobs := map["first page" := b, "g" := b];
    LiteralPage(b);
    var at, left := MemblobMeetsContract(blobs, "", "");
    l := Listed(MemblobPages(blobs, "", ""), 1, MemblobListing(blobs, "", ""), at, left);
    assert Gathered(l.list, FIRST_PAGE_TOKEN, 0, l.all, at, left).1 == FIRST_PAGE_TOKEN;
    assert Gathered(l.list, "", 1, l.all, at, left).1 == FIRST_PAGE_TOKEN;
    assert TokenAfter(l, 0) == FIRST_PAGE_TOKEN && TokenAfter(l, 1) == FIRST_PAGE_TOKEN;
    NotNever(l);
    EndsUnlessLiteral(l);
  }

  lemma NotNever(l: Listed)
    requires Good(l) && TokenAfter(l, 1) == FIRST_PAGE_TOKEN
    ensures !NeverLiteral(l)
  {
    hide MeetsContract, Gathered;
  }

  // ---------------------------------------------------------------- ListIterator

  class ListIterator {
    const list: PageFunction
    var token: string
    var page: Option<ListPage>
    var nextIdx: nat
    ghost const all: seq<ListObject>
    ghost const at: map<string, nat>
    ghost const left: map<string, nat>
    ghost var delivered: nat

    ghost predicate Valid()
      reads this
    {
      MeetsContract(list, all, at, left) && token in at
      && match page
         case None => token == "" && delivered == 0
         case Some(p) =>
           PageFits(p, token, 0, all, at, left)
           && nextIdx <= |p.objects| && delivered == at[token] + nextIdx
    }

    constructor (list: PageFunction, ghost all: seq<ListObject>, ghost at: map<string, nat>,
        ghost left: map<string, nat>)
      requires MeetsContract(list, all, at, left)
      ensures Valid() && delivered == 0
      ensures this.list == list && this.all == all && this.at == at && this.left == left
    {
      this.list, this.all, this.at, this.left := list, all, at, left;
      token, page, nextIdx, delivered := "", None, 0, 0;
    }

    /** The next object of the listing, or None at its end, however the driver cut its pages. */
    method Next() returns (r: Option<ListObject>)
      requires Valid()
      modifies this
      ensures Valid()
      ensures old(delivered) < |all| ==> r == Some(all[old(delivered)]) && delivered == old(delivered) + 1
      ensures old(delivered) >= |all| ==> r == None && delivered == old(delivered)
      decreases left[token], if page == None then 1 else 0
    {
      if page != None {
        var p := page.value;
        if nextIdx < |p.objects| {
          nextIdx := nextIdx + 1;
          delivered := delivered + 1;
          return Some(p.objects[nextIdx - 1]);
        }
        if p.nextPageToken == "" { return None; }
        token := p.nextPageToken;
      }
      assert PageFits(list(token, 0), token, 0, all, at, left);
      page := Some(list(token, 0));
      nextIdx := 0;
      r := Next();
    }
  }

  /** A client that takes objects until the iterator ends gets the same listing as by pages. */
  method CollectIterator(list: PageFunction, ghost all: seq<ListObject>, ghost at: map<string, nat>,
      ghost left: map<string, nat>)
    returns (got: seq<ListObject>)
    requires MeetsContract(list, all, at, left)
    ensures got == all
  {
    var it := new ListIterator(list, all, at, left);
    got := [];
    var o := it.Next();
    while o != None
      invariant it.Valid() && it.all == all && fresh(it)
      invariant it.delivered <= |all|
      invariant if o == None then got == all else it.delivered == |got| + 1 && got + [o.value] == all[..it.delivered]
      decreases |all| - it.delivered, if o == None then 0 else 1
    {
      got := got + [o.value];
      o := it.Next();
    }
  }
}
