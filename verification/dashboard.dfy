/** The state the application component keeps (App.tsx) and the handlers that
    change it: the date window, adding and deleting records, and the
    questions put to the assistant. Every asynchronous step is collapsed into
    one transition whose outcome is a parameter. */
module Dashboard {
  import opened Seqs
  import opened Text
  import opened Sales
  import opened Sorting
  import opened Insight

  datatype AppState = AppState(
    allData: seq<Sale>,
    filteredData: seq<Sale>,
    activeFilter: string,
    initialInsight: string,
    chatHistory: seq<ChatMessage>,
    isLoadingInsight: bool,
    isAnsweringQuery: bool,
    insightError: string,
    saleToDelete: Option<Sale>,
    isDeleting: bool)

  /** The state on first render. */
  const InitialApp := AppState([], [], "all", "", [], true, false, "", None, false)

  const MsPerDay: int := 86400000

  /** The windows the filter buttons offer, in days (`null` is all time),
      and the value each button compares with the active filter. */
  const FilterChoices: seq<Option<nat>> := [Some(7), Some(30), Some(90), None]
  const FilterButtonValues: seq<string> := ["7days", "30days", "90days", "all"]

  /** The name of the active filter: `all`, or the day count followed by `days`. */
  function FilterName(days: Option<nat>): (r: string)
    ensures days.None? ==> r == "all"
    ensures days.Some? ==> r == NatToString(days.value) + "days"
  {
    match days
    case None => "all"
    case Some(n) => NatToString(n) + "days"
  }

  /** Different windows have different names, so exactly one button shows
      as active. */
  lemma FilterNameInjective(a: Option<nat>, b: Option<nat>)
    requires FilterName(a) == FilterName(b)
    ensures a == b
  {
    if a.Some? && b.Some? {
      var x, y := NatToString(a.value), NatToString(b.value);
      assert |x| == |y|;
      assert x == (x + "days")[..|x|] == (y + "days")[..|y|] == y;
      NatToStringInjective(a.value, b.value);
    }
  }

  /** Choosing a button makes the active filter that button's value and no
      other button's, so exactly the chosen button shows as active. */
  lemma FilterButtonsMatch()
    ensures |FilterChoices| == |FilterButtonValues|
    ensures forall i :: 0 <= i < |FilterChoices| ==> FilterName(FilterChoices[i]) == FilterButtonValues[i]
    ensures forall i, j :: 0 <= i < |FilterChoices| && 0 <= j < |FilterChoices| ==>
      (FilterName(FilterChoices[i]) == FilterButtonValues[j] <==> i == j)
  {
    assert FilterName(Some(7)) == "7days" by { assert NatToString(7) == "7"; }
    assert FilterName(Some(30)) == "30days" by { assert NatToString(30) == "30"; }
    assert FilterName(Some(90)) == "90days" by { assert NatToString(90) == "90"; }
    forall i, j | 0 <= i < |FilterButtonValues| && 0 <= j < |FilterButtonValues| && i != j
      ensures FilterButtonValues[i] != FilterButtonValues[j]
    {
      assert FilterButtonValues[i][0] == "739a"[i];
      assert FilterButtonValues[j][0] == "739a"[j];
    }
  }

  /** `new Date(sale.date) >= pastDate`: the record's day, read as UTC
      midnight, is not before the instant `pastMillis` (milliseconds since
      the epoch, the clock's time less the window). */
  function OnOrAfter(pastMillis: int): Sale -> bool
  {
    (x: Sale) => x.date * MsPerDay >= pastMillis
  }

  /** The test keeps exactly the records from one calendar day on: the first
      day whose midnight is not before the instant. */
  lemma OnOrAfterCutoffDay(pastMillis: int, x: Sale)
    ensures OnOrAfter(pastMillis)(x) <==> x.date >= CeilDiv(pastMillis, MsPerDay)
  {
    var c := CeilDiv(pastMillis, MsPerDay);
    if x.date >= c {
      assert x.date * MsPerDay >= c * MsPerDay;
    } else {
      assert x.date * MsPerDay <= (c - 1) * MsPerDay;
    }
  }

  /** The least whole `q` with `q * d >= m`. */
  function CeilDiv(m: int, d: int): (q: int)
    requires d > 0
    ensures q * d >= m && (q - 1) * d < m
  {
    (m + d - 1) / d
  }

  /** `handleFilterChange(days)`: all records and the name `all` for no
      window; otherwise the records dated from the cutoff on, in their
      order, and the window's name. */
  function HandleFilterChange(st: AppState, days: Option<nat>, pastMillis: int): (r: AppState)
    ensures r.activeFilter == FilterName(days)
    ensures days.None? ==> r.filteredData == st.allData
    ensures days.Some? ==>
      && Sublist(r.filteredData, st.allData)
      && (forall x :: x in r.filteredData ==> x in st.allData && x.date * MsPerDay >= pastMillis)
      && (forall x :: x in st.allData && x.date * MsPerDay >= pastMillis ==> x in r.filteredData)
      && (forall x :: multiset(r.filteredData)[x] ==
            if x.date * MsPerDay >= pastMillis then multiset(st.allData)[x] else 0)
    ensures r.(filteredData := st.filteredData, activeFilter := st.activeFilter) == st
  {
    match days
    case None => st.(filteredData := st.allData, activeFilter := FilterName(days))
    case Some(_) =>
      FilterMembers(st.allData, OnOrAfter(pastMillis));
      st.(filteredData := Filter(st.allData, OnOrAfter(pastMillis)), activeFilter := FilterName(days))
  }

  /** A narrower window shows the records of a wider one that fall inside
      it: filtering the wider window's records gives the narrower window. */
  lemma WindowsNest(st: AppState, wide: nat, narrow: nat, wideMillis: int, narrowMillis: int)
    requires wideMillis <= narrowMillis
    ensures var w := HandleFilterChange(st, Some(wide), wideMillis);
      HandleFilterChange(w.(allData := w.filteredData), Some(narrow), narrowMillis).filteredData
        == HandleFilterChange(st, Some(narrow), narrowMillis).filteredData
  {
    FilterFilter(st.allData, OnOrAfter(wideMillis), OnOrAfter(narrowMillis));
  }

  /** A new store of records, then the two effects that follow every change
      of it (App.tsx:67-70 and 88-92): the window goes back to all time, and,
      when the store is not empty, the first insight is fetched again, which
      clears the conversation. `outcome` is how that request ended. */
  function SetAllData(st: AppState, data: seq<Sale>, outcome: Outcome): (r: AppState)
    ensures r.allData == data && r.filteredData == data && r.activeFilter == "all"
    ensures r.(allData := st.allData, filteredData := st.filteredData, activeFilter := st.activeFilter,
               chatHistory := st.chatHistory, isLoadingInsight := st.isLoadingInsight,
               initialInsight := st.initialInsight, insightError := st.insightError) == st
    ensures data == [] ==>
      && r.chatHistory == st.chatHistory && r.isLoadingInsight == st.isLoadingInsight
      && r.initialInsight == st.initialInsight && r.insightError == st.insightError
    ensures data != [] ==> r.chatHistory == [] && !r.isLoadingInsight
    ensures data != [] && outcome.Answered? ==> r.initialInsight == outcome.text && r.insightError == ""
    ensures data != [] && outcome.Failed? ==>
      r.initialInsight == st.initialInsight && r.insightError == ErrorText(outcome.message, InsightFailedDefault)
  {
    var filtered := HandleFilterChange(st.(allData := data), None, 0);
    if data != [] then FetchInitialInsight(filtered, outcome) else filtered
  }

  /** After a change to a non-empty store whose insight request is answered,
      the card shows the new insight alone: no earlier message survives. */
  lemma StoreChangeRestartsConversation(st: AppState, data: seq<Sale>, text: string)
    requires data != []
    ensures InsightPanel(SetAllData(st, data, Answered(text))) == Conversation(Some(Format(text)), [], st.isAnsweringQuery)
  {
    var r := SetAllData(st, data, Answered(text));
    assert Map(r.chatHistory, BubbleOf) == [];
  }

  /** `handleSaleAdded`: the new record joins the store, which is sorted by
      date, oldest first; the store is then not empty, so the conversation
      starts again from a new insight. */
  function HandleSaleAdded(st: AppState, sale: Sale, outcome: Outcome): (r: AppState)
    ensures multiset(r.allData) == multiset(st.allData) + multiset{sale}
    ensures |r.allData| == |st.allData| + 1
    ensures Chronological(r.allData)
    ensures r.filteredData == r.allData && r.activeFilter == "all"
    ensures r.chatHistory == [] && !r.isLoadingInsight
    ensures outcome.Answered? ==> r.initialInsight == outcome.text && r.insightError == ""
    ensures outcome.Failed? ==>
      r.initialInsight == st.initialInsight && r.insightError == ErrorText(outcome.message, InsightFailedDefault)
    ensures r.saleToDelete == st.saleToDelete && r.isDeleting == st.isDeleting
    ensures r.isAnsweringQuery == st.isAnsweringQuery
  {
    var data := Sort(DateOrder, st.allData + [sale]);
    DateOrderChronological(data);
    assert |data| > 0;
    SetAllData(st, data, outcome)
  }

  /** Records of one day keep their order when a record is added, and the
      new record comes after the others of its day. */
  lemma SaleAddedKeepsDayOrder(st: AppState, sale: Sale, outcome: Outcome, day: int)
    ensures Filter(HandleSaleAdded(st, sale, outcome).allData, HasValue(ByDate, Num(day)))
         == Filter(st.allData + [sale], HasValue(ByDate, Num(day)))
  {
    SortStable(DateOrder, st.allData + [sale], Num(day));
  }

  /** `requestDeleteConfirmation`: the record to delete is remembered. */
  function RequestDeleteConfirmation(st: AppState, sale: Sale): (r: AppState)
    ensures r.saleToDelete == Some(sale)
    ensures r.(saleToDelete := st.saleToDelete) == st
  {
    st.(saleToDelete := Some(sale))
  }

  /** The records that do not carry id `id`. */
  function HasOtherId(id: string): Sale -> bool
  {
    (x: Sale) => x.id != id
  }

  function HasId(id: string): Sale -> bool
  {
    (x: Sale) => x.id == id
  }

  /** `handleConfirmDelete`, its delay collapsed: without a selected record
      nothing happens; otherwise every record carrying the selected id goes,
      the others stay in their order, and the dialog closes. When records
      remain, the conversation starts again from a new insight; when none
      remain, it is kept. */
  function HandleConfirmDelete(st: AppState, outcome: Outcome): (r: AppState)
    ensures st.saleToDelete.None? ==> r == st
    ensures st.saleToDelete.Some? ==>
      var id := st.saleToDelete.value.id;
      && Sublist(r.allData, st.allData)
      && (forall x :: x in st.allData ==> (x in r.allData <==> x.id != id))
      && (forall x :: x in r.allData ==> x in st.allData)
      && r.filteredData == r.allData && r.activeFilter == "all"
      && r.saleToDelete == None && !r.isDeleting
      && r.isAnsweringQuery == st.isAnsweringQuery
      && (r.allData != [] ==> r.chatHistory == [] && !r.isLoadingInsight)
      && (r.allData != [] && outcome.Answered? ==> r.initialInsight == outcome.text && r.insightError == "")
      && (r.allData != [] && outcome.Failed? ==>
            r.initialInsight == st.initialInsight && r.insightError == ErrorText(outcome.message, InsightFailedDefault))
      && (r.allData == [] ==>
            && r.chatHistory == st.chatHistory && r.isLoadingInsight == st.isLoadingInsight
            && r.initialInsight == st.initialInsight && r.insightError == st.insightError)
  {
    match st.saleToDelete
    case None => st
    case Some(sale) =>
      FilterMembers(st.allData, HasOtherId(sale.id));
      SetAllData(st, Filter(st.allData, HasOtherId(sale.id)), outcome).(isDeleting := false, saleToDelete := None)
  }

  /** Deleting takes away exactly the records with the selected id: what
      stays and what goes make up the old store. */
  lemma DeleteRemovesExactly(st: AppState, outcome: Outcome)
    requires st.saleToDelete.Some?
    ensures var id := st.saleToDelete.value.id;
      multiset(HandleConfirmDelete(st, outcome).allData) + multiset(Filter(st.allData, HasId(id))) == multiset(st.allData)
  {
    var id := st.saleToDelete.value.id;
    FilterPartition(st.allData, HasOtherId(id), HasId(id));
  }

  /** An id that no record carries leaves the store as it was. */
  lemma DeleteAbsentId(st: AppState, outcome: Outcome)
    requires st.saleToDelete.Some?
    requires forall x :: x in st.allData ==> x.id != st.saleToDelete.value.id
    ensures HandleConfirmDelete(st, outcome).allData == st.allData
  {
    FilterKeepsAll(st.allData, HasOtherId(st.saleToDelete.value.id));
  }

  /** How a request to the assistant ended: an answer, or a failure with its
      message (possibly empty). */
  datatype Outcome = Answered(text: string) | Failed(message: string)

  const QueryFailedDefault := "Failed to get an answer."
  const InsightFailedDefault := "Failed to fetch insights."

  /** `error.message || fallback`. */
  function ErrorText(message: string, fallback: string): (r: string)
    ensures r != "" || fallback == ""
    ensures message != "" ==> r == message
    ensures message == "" ==> r == fallback
  {
    if message != "" then message else fallback
  }

  /** `handleAskQuery`: a blank question changes nothing. Otherwise the
      question joins the conversation; an answer follows it, or the error
      line is set and the conversation ends with the question. */
  function HandleAskQuery(st: AppState, query: string, outcome: Outcome): (r: AppState)
    ensures Trim(query) == "" ==> r == st
    ensures Trim(query) != "" ==>
      && !r.isAnsweringQuery
      && |r.chatHistory| > |st.chatHistory|
      && r.chatHistory[..|st.chatHistory| + 1] == st.chatHistory + [ChatMessage(User, query)]
      && r.(chatHistory := st.chatHistory, isAnsweringQuery := st.isAnsweringQuery, insightError := st.insightError) == st
    ensures Trim(query) != "" && outcome.Answered? ==>
      r.chatHistory == st.chatHistory + [ChatMessage(User, query), ChatMessage(Ai, outcome.text)] && r.insightError == ""
    ensures Trim(query) != "" && outcome.Failed? ==>
      r.chatHistory == st.chatHistory + [ChatMessage(User, query)] && r.insightError == ErrorText(outcome.message, QueryFailedDefault)
  {
    if Trim(query) == "" then st
    else
      var newHistory := st.chatHistory + [ChatMessage(User, query)];
      match outcome
      case Answered(answer) =>
        st.(chatHistory := newHistory + [ChatMessage(Ai, answer)], isAnsweringQuery := false, insightError := "")
      case Failed(message) =>
        st.(chatHistory := newHistory, isAnsweringQuery := false, insightError := ErrorText(message, QueryFailedDefault))
  }

  /** `fetchInitialInsight` (also the refresh button): nothing without
      records; otherwise the conversation is cleared and the insight or the
      error line is set. */
  function FetchInitialInsight(st: AppState, outcome: Outcome): (r: AppState)
    ensures st.allData == [] ==> r == st
    ensures st.allData != [] ==>
      && r.(chatHistory := st.chatHistory, isLoadingInsight := st.isLoadingInsight,
            initialInsight := st.initialInsight, insightError := st.insightError) == st
      && r.chatHistory == [] && !r.isLoadingInsight
      && (outcome.Answered? ==> r.initialInsight == outcome.text && r.insightError == "")
      && (outcome.Failed? ==>
            r.initialInsight == st.initialInsight && r.insightError == ErrorText(outcome.message, InsightFailedDefault))
  {
    if st.allData == [] then st
    else
      var cleared := st.(chatHistory := [], insightError := "");
      match outcome
      case Answered(text) => cleared.(initialInsight := text, isLoadingInsight := false)
      case Failed(message) =>
        cleared.(insightError := ErrorText(message, InsightFailedDefault), isLoadingInsight := false)
  }

  /** The card as it is drawn from the application state. */
  function InsightPanel(st: AppState): Panel
  {
    ShowPanel(st.initialInsight, st.chatHistory, st.isLoadingInsight, st.isAnsweringQuery, st.insightError)
  }

  /** A question the send button lets through always reaches the
      conversation, and once it is answered the card shows the conversation
      without the first insight, the answer last. */
  lemma SendReachesConversation(st: AppState, query: string, outcome: Outcome)
    requires !SendDisabled(st.isLoadingInsight, st.isAnsweringQuery, query)
    ensures var r := HandleAskQuery(st, HandleFormSubmit(query).asked, outcome);
      && r.chatHistory[|st.chatHistory|] == ChatMessage(User, query)
      && (outcome.Answered? ==>
            var p := InsightPanel(r);
            && p.Conversation? && p.initial == None
            && |p.bubbles| == |st.chatHistory| + 2
            && p.bubbles[|st.chatHistory| + 1] == AiBubble(Format(outcome.text)))
  {
    var r := HandleAskQuery(st, query, outcome);
    assert r.chatHistory[|st.chatHistory|] == (st.chatHistory + [ChatMessage(User, query)])[|st.chatHistory|];
  }
}
