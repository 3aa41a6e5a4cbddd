/**
 * Form and request state of the page (frontend/src/App.tsx): the upload
 * record, the parameter record, when the submit button is enabled, the
 * loading/error/results transitions of a submission, the form fields it
 * sends, and the rows of the cost-breakdown chart. The network call itself
 * is abstracted to the outcome it produces.
 */
module OptimizerApp {
  import opened Options
  import opened Sequences
  import NetworkGraph

  // ---------------------------------------------------------------------
  // Uploads

  /** The seven upload slots (`keyof FileUpload`). */
  datatype UploadKey = Plants | Customers | Products | Demand | Capacity | PlantDistances | CustomerDistances

  /** A chosen file, taken as an opaque blob with a name. */
  datatype File = File(name: string)

  /** The slot's name, as the page lists it and as the form field prefix. */
  function UploadKeyName(k: UploadKey): string {
    match k
    case Plants => "plants"
    case Customers => "customers"
    case Products => "products"
    case Demand => "demand"
    case Capacity => "capacity"
    case PlantDistances => "plant_distances"
    case CustomerDistances => "customer_distances"
  }

  /** The slots in the order the page offers them. */
  const UploadKeys: seq<UploadKey> :=
    [Plants, Customers, Products, Demand, Capacity, PlantDistances, CustomerDistances]

  /** The page offers every slot exactly once, under seven different names. */
  lemma UploadKeysListed(k: UploadKey, k': UploadKey)
    ensures |UploadKeys| == 7 && NoDuplicates(UploadKeys) && k in UploadKeys
    ensures UploadKeyName(k) == UploadKeyName(k') <==> k == k'
  {
  }

  /**
   * `handleFileChange`: with no file chosen nothing changes; otherwise the
   * first chosen file is stored under `key` and every other slot is kept.
   */
  function HandleFileChange(files: map<UploadKey, File>, key: UploadKey, chosen: seq<File>): (r: map<UploadKey, File>)
    ensures chosen == [] ==> r == files
    ensures chosen != [] ==> r.Keys == files.Keys + {key} && r[key] == chosen[0]
    ensures forall k :: k != key ==> (k in r <==> k in files) && (k in files ==> r[k] == files[k])
  {
    if chosen != [] then files[key := chosen[0]] else files
  }

  // ---------------------------------------------------------------------
  // Parameters

  datatype Params = Params(
    truckCapacity: real,
    shippingCostPerMile: real,
    warehouseFixedCost: real,
    maxOneDayDistance: real,
    regularHours: real,
    overtimeHours: real,
    overtimeCostMultiplier: real)

  datatype ParamKey =
    TruckCapacity | ShippingCostPerMile | WarehouseFixedCost | MaxOneDayDistance
    | RegularHours | OvertimeHours | OvertimeCostMultiplier

  /** The initial parameter values. */
  const DefaultParams: Params := Params(10.0, 2.0, 10000.0, 450.0, 720.0, 360.0, 1.5)

  /** The field a key names. */
  function Get(p: Params, k: ParamKey): real {
    match k
    case TruckCapacity => p.truckCapacity
    case ShippingCostPerMile => p.shippingCostPerMile
    case WarehouseFixedCost => p.warehouseFixedCost
    case MaxOneDayDistance => p.maxOneDayDistance
    case RegularHours => p.regularHours
    case OvertimeHours => p.overtimeHours
    case OvertimeCostMultiplier => p.overtimeCostMultiplier
  }

  /** `handleParamChange(key)`: the one named field takes the new value; every other field is kept. */
  function HandleParamChange(p: Params, key: ParamKey, value: real): (r: Params)
    ensures Get(r, key) == value
    ensures forall k :: k != key ==> Get(r, k) == Get(p, k)
  {
    match key
    case TruckCapacity => p.(truckCapacity := value)
    case ShippingCostPerMile => p.(shippingCostPerMile := value)
    case WarehouseFixedCost => p.(warehouseFixedCost := value)
    case MaxOneDayDistance => p.(maxOneDayDistance := value)
    case RegularHours => p.(regularHours := value)
    case OvertimeHours => p.(overtimeHours := value)
    case OvertimeCostMultiplier => p.(overtimeCostMultiplier := value)
  }

  // ---------------------------------------------------------------------
  // The submit button

  /** Every slot, as a set. */
  const AllUploadKeys: set<UploadKey> :=
    {Plants, Customers, Products, Demand, Capacity, PlantDistances, CustomerDistances}

  /** The set of all slots has seven members, and every slot is one of them. */
  lemma AllSlots(k: UploadKey)
    ensures k in AllUploadKeys && |AllUploadKeys| == 7
  {
    var six := {Plants, Customers, Products, Demand, Capacity, PlantDistances};
    assert |six - {Plants}| == 5 by {
      assert six - {Plants} == {Customers, Products, Demand, Capacity, PlantDistances};
    }
    assert AllUploadKeys == six + {CustomerDistances};
  }

  /** A subset is no larger than the set that holds it. */
  lemma {:induction false} SubsetSize<T>(a: set<T>, b: set<T>)
    requires a <= b
    ensures |a| <= |b|
    decreases |b|
  {
    if a != {} {
      var x :| x in a;
      SubsetSize(a - {x}, b - {x});
    }
  }

  /** Fewer than seven keys are set exactly when some slot is still empty. */
  lemma MissingSlot(files: map<UploadKey, File>)
    ensures |files.Keys| < 7 <==> exists k :: k !in files
  {
    forall k | k in files ensures k in AllUploadKeys {
      AllSlots(k);
    }
    AllSlots(Plants);
    if k :| k !in files {
      AllSlots(k);
      SubsetSize(files.Keys, AllUploadKeys - {k});
      assert |AllUploadKeys - {k}| == 6;
    } else {
      forall k | k in AllUploadKeys ensures k in files.Keys { }
      assert files.Keys == AllUploadKeys;
    }
  }

  /** `disabled`: while loading, or until every one of the seven slots holds a file. */
  function SubmitDisabled(loading: bool, files: map<UploadKey, File>): (disabled: bool)
    ensures disabled <==> loading || exists k :: k !in files
  {
    MissingSlot(files);
    loading || |files.Keys| < 7
  }

  // ---------------------------------------------------------------------
  // Submission

  datatype NetworkMetrics = NetworkMetrics(
    totalTransportationCost: real,
    totalProductionCost: real,
    totalWarehouseCost: real,
    totalRevenue: real)

  /** The parsed response body. */
  datatype OptimizationResult = OptimizationResult(
    status: string,
    objectiveValue: real,
    warehousesOpened: seq<string>,
    shippingPlan: NetworkGraph.ShippingPlan,
    networkMetrics: NetworkMetrics)

  /** A value thrown inside the `try`: an `Error` with its message, or anything else. */
  datatype Thrown = ErrorObject(message: string) | OtherValue

  /**
   * What the request came to: `fetch` rejected, or a response arrived with
   * its `ok` flag and the result of reading its JSON body.
   */
  datatype FetchOutcome =
    | Rejected(reason: Thrown)
    | Responded(ok: bool, body: Result<OptimizationResult, Thrown>)

  /** The outcome is an ok response whose body was read. */
  predicate Succeeded(outcome: FetchOutcome) {
    outcome.Responded? && outcome.ok && outcome.body.Success?
  }

  /** The page's request state. */
  datatype RequestState = RequestState(loading: bool, error: Option<string>, results: Option<OptimizationResult>)

  /** The message the `catch` block shows for a thrown value. */
  function ErrorMessage(t: Thrown): (m: string)
    ensures t.ErrorObject? ==> m == t.message
    ensures t.OtherValue? ==> m == "An error occurred"
  {
    match t
    case ErrorObject(msg) => msg
    case OtherValue => "An error occurred"
  }

  /** The state once the request has started: loading, with the error cleared. */
  function Started(s: RequestState): (r: RequestState)
    ensures r.loading && r.error.None? && r.results == s.results
  {
    RequestState(true, None, s.results)
  }

  /**
   * The state once the request settles (the `try`, `catch` and `finally`
   * blocks run after `Started`): loading ends whatever happened; a
   * successful read stores the data; a non-ok response fails with
   * "Optimization failed"; any other thrown value shows its message.
   */
  function Settled(s: RequestState, outcome: FetchOutcome): (r: RequestState)
    requires s.error.None?
    ensures !r.loading
    ensures r.error.None? <==> Succeeded(outcome)
    ensures Succeeded(outcome) ==> r.results == Some(outcome.body.value)
    ensures !Succeeded(outcome) ==> r.results == s.results
    ensures outcome.Responded? && !outcome.ok ==> r.error == Some("Optimization failed")
    ensures outcome.Rejected? ==> r.error == Some(ErrorMessage(outcome.reason))
    ensures outcome.Responded? && outcome.ok && outcome.body.Failure? ==>
      r.error == Some(ErrorMessage(outcome.body.error))
  {
    match outcome
    case Rejected(t) => RequestState(false, Some(ErrorMessage(t)), s.results)
    case Responded(ok, body) =>
      if !ok then
        RequestState(false, Some(ErrorMessage(ErrorObject("Optimization failed"))), s.results)
      else
        match body
        case Success(data) => RequestState(false, s.error, Some(data))
        case Failure(t) => RequestState(false, Some(ErrorMessage(t)), s.results)
  }

  /** A submission from any state ends not loading, showing an error exactly when it failed. */
  lemma SubmitEnds(s: RequestState, outcome: FetchOutcome)
    ensures var r := Settled(Started(s), outcome);
      && !r.loading
      && (r.error.None? <==> Succeeded(outcome))
      && (r.results == if Succeeded(outcome) then Some(outcome.body.value) else s.results)
  {
  }

  /** One entry of the multipart body. */
  datatype FormField = FileField(name: string, file: File) | ParamsField(params: Params)

  /**
   * The request body: one `<key>_file` field per stored upload, in the order
   * the record holds them, then the parameters.
   */
  method FormFields(files: map<UploadKey, File>, order: seq<UploadKey>, params: Params)
    returns (fields: seq<FormField>)
    requires NoDuplicates(order) && forall k :: k in files <==> k in order
    ensures |fields| == |order| + 1 == |files| + 1
    ensures forall i :: 0 <= i < |order| ==> fields[i] == FileField(UploadKeyName(order[i]) + "_file", files[order[i]])
    ensures fields[|order|] == ParamsField(params)
  {
    fields := [];
    var i := 0;
    while i < |order|
      invariant 0 <= i <= |order|
      invariant |fields| == i
      invariant forall j :: 0 <= j < i ==> fields[j] == FileField(UploadKeyName(order[j]) + "_file", files[order[j]])
    {
      var key := order[i];
      fields := fields + [FileField(UploadKeyName(key) + "_file", files[key])];
      i := i + 1;
    }
    fields := fields + [ParamsField(params)];
    DistinctCount(files, order);
  }

  /** A duplicate-free listing of a map's keys is as long as the map. */
  lemma DistinctCount(files: map<UploadKey, File>, order: seq<UploadKey>)
    requires NoDuplicates(order) && forall k :: k in files <==> k in order
    ensures |files| == |order|
  {
    NoDuplicatesDistinct(order);
    DistinctCardinality(order);
    assert Elements(order) == files.Keys;
  }

  /** The page, with the state its event handlers update. */
  class Page {
    var files: map<UploadKey, File>
    var params: Params
    var request: RequestState

    constructor ()
      ensures files == map[] && params == DefaultParams
      ensures request == RequestState(false, None, None)
    {
      files := map[];
      params := DefaultParams;
      request := RequestState(false, None, None);
    }

    method ChangeFile(key: UploadKey, chosen: seq<File>)
      modifies this
      ensures files == HandleFileChange(old(files), key, chosen)
      ensures params == old(params) && request == old(request)
    {
      if chosen != [] {
        files := files[key := chosen[0]];
      }
    }

    method ChangeParam(key: ParamKey, value: real)
      modifies this
      ensures params == HandleParamChange(old(params), key, value)
      ensures files == old(files) && request == old(request)
    {
      params := HandleParamChange(params, key, value);
    }

    /**
     * `handleSubmit`: set loading and clear the error, build the body, then
     * settle on the outcome of the request. `order` is the order in which
     * the upload record holds its keys.
     */
    method Submit(order: seq<UploadKey>, outcome: FetchOutcome) returns (body: seq<FormField>)
      requires NoDuplicates(order) && forall k :: k in files <==> k in order
      modifies this
      ensures files == old(files) && params == old(params)
      ensures |body| == |order| + 1 && body[|order|] == ParamsField(params)
      ensures forall i :: 0 <= i < |order| ==>
        body[i] == FileField(UploadKeyName(order[i]) + "_file", files[order[i]])
      ensures request == Settled(Started(old(request)), outcome)
    {
      request := request.(loading := true);
      request := request.(error := None);
      body := FormFields(files, order, params);
      match outcome {
        case Rejected(t) =>
          request := request.(error := Some(ErrorMessage(t)));
        case Responded(ok, result) =>
          if !ok {
            request := request.(error := Some(ErrorMessage(ErrorObject("Optimization failed"))));
          } else {
            match result {
              case Success(data) => request := request.(results := Some(data));
              case Failure(t) => request := request.(error := Some(ErrorMessage(t)));
            }
          }
      }
      request := request.(loading := false);
    }
  }

  // ---------------------------------------------------------------------
  // Cost-breakdown chart

  datatype ChartRow = ChartRow(name: string, cost: real)

  /** The metric a chart bar stands for. */
  function MetricNamed(m: NetworkMetrics, name: string): real {
    if name == "Transportation" then m.totalTransportationCost
    else if name == "Production" then m.totalProductionCost
    else if name == "Warehouse" then m.totalWarehouseCost
    else m.totalRevenue
  }

  /** `renderMetricsChart` data: four bars, in a fixed order, each with its own metric. */
  function ChartRows(m: NetworkMetrics): (rows: seq<ChartRow>)
    ensures |rows| == 4
    ensures rows[0].name == "Transportation" && rows[1].name == "Production"
    ensures rows[2].name == "Warehouse" && rows[3].name == "Revenue"
    ensures forall i :: 0 <= i < 4 ==> rows[i].cost == MetricNamed(m, rows[i].name)
  {
    [ChartRow("Transportation", m.totalTransportationCost),
     ChartRow("Production", m.totalProductionCost),
     ChartRow("Warehouse", m.totalWarehouseCost),
     ChartRow("Revenue", m.totalRevenue)]
  }
}
