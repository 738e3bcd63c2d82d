/**
  The append-only rule, written twice in the program: as a session listener over ORM
  instances (persistence/append_only_listener.py) and as SQLite triggers
  (migrations/_trading_whitelist_trigger_helpers.py, _trading_trigger_helpers.py,
  _research_trigger_helpers.py). This module models both and proves how they agree.
 */
module AppendOnly {
  import opened Options

  datatype Table =
    | Trades | Orders | TradeProposals
    | Fills | EquitySnapshots
    | ResearchBriefs | CorporateEvents | AnalystRatings
    | ResearchFacts

  datatype Column =
    | Id | TenantId | CreatedAt | State | ClosedAt | Symbol | Side | Quantity | Mode
    | ProposalId | OpenedAt | ExitReason | RealisedPnl
    | JournalNarrative | JournalGeneratedAt | JournalModel
    | AvgEntryPrice | UnrealizedPnl | MarksUpdatedAt
    | TradeId | Broker | BrokerOrderId | OrderType | LimitPrice | StopPrice | TargetPrice | ClientOrderId
    | SubmittedAt | AcknowledgedAt
    | StrategyConfigId | EntryPriceIndicative | ConfidenceScore | Reasoning | ResearchBriefId | CorrelationId
    | RejectionReason | RejectedAt | RiskScore | RiskFlags | RiskRationale | RiskGeneratedAt | RiskModel
    | SourceId | SymbolUniverseId | FactKind | ValueNumeric | ValueText | ValueJsonb | Unit | Currency
    | EffectiveFrom | EffectiveTo | RecordedFrom | RecordedTo | SourceUrl | RetrievalMethod | RetrievedAt
    | RawPayloadInline | RawPayloadPath | RawPayloadSha256 | RawPayloadSizeBytes
    | Confidence | Metadata | DedupeKey
    | Other(name: string)

  /** A stored or in-memory row; a missing or None cell is SQL NULL. */
  type Row = map<Column, Option<int>>

  function Cell(r: Row, c: Column): Option<int> {
    if c in r then r[c] else None
  }

  // ---- L2: the triggers' static column tables and predicates ----

  predicate Whitelisted(t: Table) {
    t == Trades || t == Orders || t == TradeProposals
  }

  predicate FullyLocked(t: Table) {
    !Whitelisted(t) && t != ResearchFacts
  }

  function MutableColumns(t: Table): set<Column>
    requires Whitelisted(t)
  {
    match t
    case Trades =>
      {State, ClosedAt, ExitReason, RealisedPnl, JournalNarrative, JournalGeneratedAt, JournalModel,
       AvgEntryPrice, UnrealizedPnl, MarksUpdatedAt}
    case Orders => {State, BrokerOrderId, SubmittedAt, AcknowledgedAt, ClosedAt}
    case TradeProposals =>
      {State, RejectionReason, RejectedAt, RiskScore, RiskFlags, RiskRationale, RiskGeneratedAt, RiskModel}
  }

  function NonWhitelistedColumns(t: Table): set<Column>
    requires Whitelisted(t)
  {
    match t
    case Trades => {Id, TenantId, ProposalId, Symbol, Side, Quantity, Mode, OpenedAt, CreatedAt}
    case Orders =>
      {Id, TenantId, TradeId, Broker, OrderType, Side, Quantity, LimitPrice, StopPrice, TargetPrice,
       ClientOrderId, CreatedAt}
    case TradeProposals =>
      {Id, TenantId, StrategyConfigId, Symbol, Side, Quantity, EntryPriceIndicative, StopPrice, TargetPrice,
       ConfidenceScore, Reasoning, ResearchBriefId, Mode, CorrelationId, CreatedAt}
  }

  const FACT_COLUMNS: set<Column> :=
    {Id, TenantId, SourceId, SymbolUniverseId, FactKind, ValueNumeric, ValueText, ValueJsonb, Unit, Currency,
     EffectiveFrom, EffectiveTo, RecordedFrom, SourceUrl, RetrievalMethod, RetrievedAt, RawPayloadInline,
     RawPayloadPath, RawPayloadSha256, RawPayloadSizeBytes, Confidence, Metadata, CreatedAt}

  /** OLD.c IS NOT NEW.c for no c of the set: the comparison is NULL-safe. */
  ghost predicate SameOn(columns: set<Column>, old_: Row, new_: Row) {
    forall c :: c in columns ==> Cell(old_, c) == Cell(new_, c)
  }

  /** The BEFORE UPDATE trigger lets this row image through. */
  ghost predicate UpdateAllowed(t: Table, old_: Row, new_: Row) {
    if Whitelisted(t) then SameOn(NonWhitelistedColumns(t), old_, new_)
    else if t == ResearchFacts then
      Cell(old_, RecordedTo) == None && Cell(new_, RecordedTo).Some? && SameOn(FACT_COLUMNS, old_, new_)
    else false
  }

  // ---- L1: the before_flush listener ----

  /** A mapped class: its column attributes and its two append-only declarations. */
  datatype Model = Model(columns: seq<Column>, appendOnly: bool, mutableColumns: set<Column>)

  /** An instance in the session: the snapshot loaded from the database and the values it has now. */
  datatype Instance = Instance(model: Model, loaded: Row, current: Row)

  ghost function Dirty(x: Instance): set<Column> {
    set c | c in x.model.columns && Cell(x.loaded, c) != Cell(x.current, c)
  }

  ghost predicate FlushAllowed(x: Instance) {
    x.model.appendOnly ==> Dirty(x) <= x.model.mutableColumns
  }

  method DirtyColumnNames(x: Instance) returns (dirty: set<Column>)
    ensures dirty == Dirty(x)
  {
    dirty := {};
    for n := 0 to |x.model.columns|
      invariant dirty == set i | 0 <= i < n && Cell(x.loaded, x.model.columns[i]) != Cell(x.current, x.model.columns[i])
                          :: x.model.columns[i]
    {
      var c := x.model.columns[n];
      if Cell(x.loaded, c) != Cell(x.current, c) {
        dirty := dirty + {c};
      }
    }
  }

  datatype Violation = UpdateRefused(offending: set<Column>) | DeleteRefused

  /** Raises on the first forbidden UPDATE in session.dirty, else on the first forbidden DELETE. */
  method BlockAppendOnlyMutations(dirty: seq<Instance>, deleted: seq<Instance>) returns (violation: Option<Violation>)
    ensures violation == None <==>
            && (forall i :: 0 <= i < |dirty| ==> FlushAllowed(dirty[i]))
            && (forall i :: 0 <= i < |deleted| ==> !deleted[i].model.appendOnly)
    ensures violation.Some? && violation.value.UpdateRefused? ==>
              exists i :: 0 <= i < |dirty| && !FlushAllowed(dirty[i])
                          && violation.value.offending == Dirty(dirty[i]) - dirty[i].model.mutableColumns
                          && forall k :: 0 <= k < i ==> FlushAllowed(dirty[k])
    ensures violation == Some(DeleteRefused) ==> forall i :: 0 <= i < |dirty| ==> FlushAllowed(dirty[i])
  {
    for n := 0 to |dirty|
      invariant forall i :: 0 <= i < n ==> FlushAllowed(dirty[i])
    {
      if dirty[n].model.appendOnly {
        var columns := DirtyColumnNames(dirty[n]);
        var offending := columns - dirty[n].model.mutableColumns;
        if columns != {} && offending != {} {
          assert !FlushAllowed(dirty[n]) && offending == Dirty(dirty[n]) - dirty[n].model.mutableColumns;
          return Some(UpdateRefused(offending));
        }
        assert forall c :: c in columns && c !in dirty[n].model.mutableColumns ==> c in offending;
      }
    }
    for n := 0 to |deleted|
      invariant forall i :: 0 <= i < n ==> !deleted[i].model.appendOnly
    {
      if deleted[n].model.appendOnly {
        return Some(DeleteRefused);
      }
    }
    return None;
  }

  // ---- the two layers compared ----

  const TRADE_MODEL := Model(
    [Id, TenantId, ProposalId, Symbol, Side, Quantity, Mode, State, OpenedAt, ClosedAt, ExitReason, RealisedPnl,
     JournalNarrative, JournalGeneratedAt, JournalModel, AvgEntryPrice, UnrealizedPnl, MarksUpdatedAt, CreatedAt],
    true,
    {State, ClosedAt, ExitReason, RealisedPnl, JournalNarrative, JournalGeneratedAt, JournalModel,
     AvgEntryPrice, UnrealizedPnl, MarksUpdatedAt})

  const ORDER_MODEL := Model(
    [Id, TenantId, TradeId, Broker, BrokerOrderId, OrderType, Side, Quantity, LimitPrice, StopPrice, TargetPrice,
     ClientOrderId, State, SubmittedAt, AcknowledgedAt, ClosedAt, CreatedAt],
    true,
    {State, BrokerOrderId, SubmittedAt, AcknowledgedAt, ClosedAt})

  const PROPOSAL_MODEL := Model(
    [Id, TenantId, StrategyConfigId, Symbol, Side, Quantity, EntryPriceIndicative, StopPrice, TargetPrice,
     ConfidenceScore, Reasoning, ResearchBriefId, Mode, CorrelationId, CreatedAt, State, RejectionReason,
     RejectedAt, RiskScore, RiskFlags, RiskRationale, RiskGeneratedAt, RiskModel],
    true,
    {State, RejectionReason, RejectedAt, RiskScore, RiskFlags, RiskRationale, RiskGeneratedAt, RiskModel})

  function WhitelistedModel(t: Table): Model
    requires Whitelisted(t)
  {
    match t
    case Trades => TRADE_MODEL
    case Orders => ORDER_MODEL
    case TradeProposals => PROPOSAL_MODEL
  }

  ghost predicate Partitions(m: Model, mutable: set<Column>, frozen: set<Column>) {
    && m.appendOnly && m.mutableColumns == mutable && mutable !! frozen
    && (forall i :: 0 <= i < |m.columns| ==> m.columns[i] in mutable + frozen)
    && (forall c :: c in mutable ==> c in m.columns)
    && (forall c :: c in frozen ==> c in m.columns)
  }

  /** The trigger's static lists and the ORM whitelist split the mapped columns of each table in two. */
  lemma ListsPartitionColumns(t: Table)
    requires Whitelisted(t)
    ensures Partitions(WhitelistedModel(t), MutableColumns(t), NonWhitelistedColumns(t))
  {
    match t {
      case Trades => TradeListsPartition();
      case Orders => OrderListsPartition();
      case TradeProposals => ProposalListsPartition();
    }
  }

  lemma TradeListsPartition()
    ensures Partitions(TRADE_MODEL, MutableColumns(Trades), NonWhitelistedColumns(Trades))
  {
  }

  lemma OrderListsPartition()
    ensures Partitions(ORDER_MODEL, MutableColumns(Orders), NonWhitelistedColumns(Orders))
  {
  }

  lemma ProposalListsPartition()
    ensures Partitions(PROPOSAL_MODEL, MutableColumns(TradeProposals), NonWhitelistedColumns(TradeProposals))
  {
  }

  /** The row image of the UPDATE the ORM emits: only dirty columns are set. */
  ghost function Emitted(stored: Row, x: Instance): Row {
    stored + map c | c in Dirty(x) :: Cell(x.current, c)
  }

  /** What the trigger's comparison over the frozen columns amounts to for an emitted UPDATE. */
  lemma EmittedComparison(mutable: set<Column>, frozen: set<Column>, x: Instance, stored: Row)
    requires Partitions(x.model, mutable, frozen)
    ensures SameOn(frozen, stored, Emitted(stored, x)) <==> SameOn(Dirty(x) - mutable, stored, x.current)
    ensures FlushAllowed(x) <==> Dirty(x) - mutable == {}
  {
    var offending, emitted := Dirty(x) - mutable, Emitted(stored, x);
    forall c | c in frozen
      ensures Cell(emitted, c) == if c in offending then Cell(x.current, c) else Cell(stored, c)
    {}
    assert forall c :: c in Dirty(x) ==> c in mutable + frozen;
    assert offending <= frozen;
  }

  /** Whatever the stored row is by now, an UPDATE that L1 lets through passes the trigger. */
  lemma ListenerImpliesTrigger(t: Table, x: Instance, stored: Row)
    requires Whitelisted(t) && x.model == WhitelistedModel(t) && FlushAllowed(x)
    ensures UpdateAllowed(t, stored, Emitted(stored, x))
  {
    ListsPartitionColumns(t);
    EmittedComparison(MutableColumns(t), NonWhitelistedColumns(t), x, stored);
  }

  /** The two layers give the same verdict on the UPDATE this instance asks for. */
  ghost predicate LayersAgree(t: Table, x: Instance, stored: Row) {
    FlushAllowed(x) <==> UpdateAllowed(t, stored, Emitted(stored, x))
  }

  /**
    The layers differ exactly when L1 refuses columns that the instance thinks it changed
    while the stored row already holds the new values.
   */
  lemma LayersAgreeExactly(t: Table, x: Instance, stored: Row)
    requires Whitelisted(t) && x.model == WhitelistedModel(t)
    ensures var offending := Dirty(x) - x.model.mutableColumns;
            LayersAgree(t, x, stored) <==> (offending == {} || !SameOn(offending, stored, x.current))
  {
    ListsPartitionColumns(t);
    EmittedComparison(MutableColumns(t), NonWhitelistedColumns(t), x, stored);
  }

  /** They always agree when the snapshot the instance was loaded with is the stored row. */
  lemma FreshSnapshotAgrees(t: Table, x: Instance, stored: Row)
    requires Whitelisted(t) && x.model == WhitelistedModel(t)
    requires forall c :: c in x.model.columns ==> Cell(stored, c) == Cell(x.loaded, c)
    ensures LayersAgree(t, x, stored)
  {
    LayersAgreeExactly(t, x, stored);
    var offending := Dirty(x) - x.model.mutableColumns;
    if c :| c in offending {
      assert c in x.model.columns && Cell(stored, c) != Cell(x.current, c);
    }
  }

  /** A snapshot gone stale: L1 refuses a quantity that the stored row already holds. */
  lemma StaleSnapshotDiffers()
    ensures var x := Instance(TRADE_MODEL, map[Quantity := Some(1)], map[Quantity := Some(2)]);
            var stored: Row := map[Quantity := Some(2)];
            !FlushAllowed(x) && UpdateAllowed(Trades, stored, Emitted(stored, x))
  {
    var x := Instance(TRADE_MODEL, map[Quantity := Some(1)], map[Quantity := Some(2)]);
    assert Quantity in x.model.columns && Quantity in Dirty(x);
  }

  /**
    research_facts: L1 refuses every real change, so on a stored row the layers differ exactly
    when the instance sets recorded_to where the row has none and every listed column it has
    dirty is in the row already.
   */
  lemma FactLayersDifferExactly(x: Instance, stored: Row)
    requires x.model.appendOnly && x.model.mutableColumns == {}
    ensures (!FlushAllowed(x) && UpdateAllowed(ResearchFacts, stored, Emitted(stored, x))) <==>
            (Cell(stored, RecordedTo) == None && RecordedTo in Dirty(x) && Cell(x.current, RecordedTo).Some?
             && SameOn(Dirty(x) * FACT_COLUMNS, stored, x.current))
  {
    var emitted := Emitted(stored, x);
    forall c ensures Cell(emitted, c) == if c in Dirty(x) then Cell(x.current, c) else Cell(stored, c) {
    }
    assert SameOn(FACT_COLUMNS, stored, emitted) <==> SameOn(Dirty(x) * FACT_COLUMNS, stored, x.current) by {
      if SameOn(FACT_COLUMNS, stored, emitted) {
        forall c | c in Dirty(x) * FACT_COLUMNS ensures Cell(stored, c) == Cell(x.current, c) {
          assert Cell(stored, c) == Cell(emitted, c);
        }
      }
    }
  }
}
