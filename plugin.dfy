/** The InfiniBand device plugin: the inventory it builds at start-up, the
    health refresh of its health stream, the mapping from allocation
    requests to device mounts, and the constant RPCs of the device-plugin
    protocol (kubelet device-plugin API v1beta1). */
module IbPlugin {
  import Decimal

  /** Directory scanned once for InfiniBand device nodes. */
  const IbDevicePath: string := "/dev/infiniband"
  /** Every unit ID is this prefix followed by the unit's index in decimal. */
  const UnitIdPrefix: string := "ib-plugin/infiniband-"
  /** Permission string of every device mount. */
  const ReadWrite: string := "rw"

  // ---------------------------------------------------------------------------
  // Data model

  datatype Health = Healthy | Unhealthy

  /** One allocatable unit advertised to the kubelet (a v1beta1 Device). */
  datatype Unit = Unit(id: string, health: Health)

  /** What stat and then readdir of the device directory report. */
  datatype Probe =
    | NotExist                       // stat: the path does not exist
    | StatError                      // stat: any other error
    | NotDirectory                   // stat: the path is not a directory
    | ReadDirError                   // stat: a directory; readdir fails
    | Directory(names: seq<string>)  // stat: a directory; readdir lists these entries
  {
    /** readdir only yields pairwise distinct entry names that are
        non-empty, hold no '/' and are neither "." nor "..": for those,
        joining onto the directory is plain concatenation with a separator. */
    predicate WellFormed() {
      Directory? ==>
        (forall k :: 0 <= k < |names| ==> EntryName(names[k])) &&
        (forall j, k :: 0 <= j < k < |names| ==> names[j] != names[k])
    }
  }

  predicate EntryName(name: string) {
    |name| > 0 && '/' !in name && name != "." && name != ".."
  }

  /** Reasons the plugin process dies while it builds its inventory. */
  datatype StartupFailure =
    | MakeSlicePanic   // make() of the unit slice with a negative length
    | StatFailed       // fatal log after a stat error other than not-exist
    | ReadDirFailed    // fatal log after an unreadable directory

  datatype Result<T> = Ok(value: T) | Fatal(failure: StartupFailure)

  /** A host file bind-mounted into a container. */
  datatype DeviceSpec = DeviceSpec(hostPath: string, containerPath: string, permissions: string)

  datatype ContainerAllocateRequest = ContainerAllocateRequest(devicesIds: seq<string>)
  datatype ContainerAllocateResponse = ContainerAllocateResponse(devices: seq<DeviceSpec>)
  datatype AllocateResponse = AllocateResponse(containerResponses: seq<ContainerAllocateResponse>)

  datatype DevicePluginOptions =
    DevicePluginOptions(preStartRequired: bool, getPreferredAllocationAvailable: bool)

  datatype ContainerPreferredAllocationRequest = ContainerPreferredAllocationRequest(
    availableDeviceIds: seq<string>, mustIncludeDeviceIds: seq<string>, allocationSize: int)
  datatype PreferredAllocationRequest =
    PreferredAllocationRequest(containerRequests: seq<ContainerPreferredAllocationRequest>)
  datatype ContainerPreferredAllocationResponse = ContainerPreferredAllocationResponse(deviceIds: seq<string>)
  datatype PreferredAllocationResponse =
    PreferredAllocationResponse(containerResponses: seq<ContainerPreferredAllocationResponse>)

  datatype PreStartContainerRequest = PreStartContainerRequest(devicesIds: seq<string>)
  datatype PreStartContainerResponse = PreStartContainerResponse

  // ---------------------------------------------------------------------------
  // Unit inventory

  /** The ID of unit `k`. */
  function UnitId(k: nat): string {
    UnitIdPrefix + Decimal.Format(k)
  }

  lemma UnitIdInjective(j: nat, k: nat)
    ensures UnitId(j) == UnitId(k) <==> j == k
  {
    if UnitId(j) == UnitId(k) {
      assert Decimal.Format(j) == UnitId(j)[|UnitIdPrefix|..];
      assert Decimal.Format(k) == UnitId(k)[|UnitIdPrefix|..];
      Decimal.FormatInjective(j, k);
    }
  }

  /** The units of a plugin built for `n` units. */
  function Inventory(n: nat): seq<Unit> {
    seq(n, k requires 0 <= k < n => Unit(UnitId(k), Healthy))
  }

  /** A plugin built for `n` units advertises `n` healthy units with
      pairwise distinct IDs. */
  lemma InventoryDistinctHealthy(n: nat)
    ensures |Inventory(n)| == n
    ensures forall k :: 0 <= k < n ==> Inventory(n)[k].health == Healthy
    ensures forall j, k :: 0 <= j < n && 0 <= k < n && j != k ==> Inventory(n)[j].id != Inventory(n)[k].id
  {
    forall j, k | 0 <= j < n && 0 <= k < n && j != k
      ensures Inventory(n)[j].id != Inventory(n)[k].id
    {
      UnitIdInjective(j, k);
    }
  }

  /** The unit IDs, in order. */
  function Ids(units: seq<Unit>): seq<string> {
    if units == [] then [] else [units[0].id] + Ids(units[1..])
  }

  // ---------------------------------------------------------------------------
  // Health refresh

  /** The units after one refresh pass of the health stream: every unit
      marked Healthy. */
  function Refreshed(units: seq<Unit>): (r: seq<Unit>)
    ensures |r| == |units|
  {
    if units == [] then [] else [units[0].(health := Healthy)] + Refreshed(units[1..])
  }

  lemma {:induction false} RefreshedAt(units: seq<Unit>, k: nat)
    requires k < |units|
    ensures Refreshed(units)[k] == Unit(units[k].id, Healthy)
  {
    if k > 0 {
      RefreshedAt(units[1..], k - 1);
    }
  }

  /** A refresh keeps the unit IDs and their order. */
  lemma {:induction false} RefreshKeepsIds(units: seq<Unit>)
    ensures Ids(Refreshed(units)) == Ids(units)
  {
    if units != [] {
      RefreshKeepsIds(units[1..]);
    }
  }

  /** After a refresh every unit is Healthy. */
  lemma {:induction false} RefreshAllHealthy(units: seq<Unit>)
    ensures forall u :: u in Refreshed(units) ==> u.health == Healthy
  {
    if units != [] {
      RefreshAllHealthy(units[1..]);
    }
  }

  /** A second refresh changes nothing. */
  lemma {:induction false} RefreshIdempotent(units: seq<Unit>)
    ensures Refreshed(Refreshed(units)) == Refreshed(units)
  {
    if units != [] {
      RefreshIdempotent(units[1..]);
    }
  }

  /** A freshly built inventory is already what a refresh produces, so every
      snapshot the health stream sends equals the initial one. */
  lemma RefreshInventory(n: nat)
    ensures Refreshed(Inventory(n)) == Inventory(n)
  {
    forall k | 0 <= k < n
      ensures Refreshed(Inventory(n))[k] == Inventory(n)[k]
    {
      RefreshedAt(Inventory(n), k);
    }
  }

  // ---------------------------------------------------------------------------
  // Device paths

  /** The absolute path of directory entry `name`. */
  function DevicePath(name: string): string {
    IbDevicePath + "/" + name
  }

  lemma DevicePathInjective(a: string, b: string)
    ensures DevicePath(a) == DevicePath(b) <==> a == b
  {
    if DevicePath(a) == DevicePath(b) {
      assert a == DevicePath(a)[|IbDevicePath| + 1..];
      assert b == DevicePath(b)[|IbDevicePath| + 1..];
    }
  }

  /** One absolute path per directory entry, in entry order. */
  function DevicePaths(names: seq<string>): (paths: seq<string>)
    ensures |paths| == |names|
    ensures forall k :: 0 <= k < |names| ==> paths[k] == DevicePath(names[k])
  {
    if names == [] then [] else [DevicePath(names[0])] + DevicePaths(names[1..])
  }

  /** Distinct directory entries give distinct mounts. */
  lemma DevicePathsDistinct(names: seq<string>)
    requires forall j, k :: 0 <= j < k < |names| ==> names[j] != names[k]
    ensures forall j, k :: 0 <= j < k < |names| ==> DevicePaths(names)[j] != DevicePaths(names)[k]
  {
    forall j, k | 0 <= j < k < |names|
      ensures DevicePaths(names)[j] != DevicePaths(names)[k]
    {
      DevicePathInjective(names[j], names[k]);
    }
  }

  /** The device-path inventory a probe result leads to, or the reason the
      process dies. */
  function ProbeDevicePaths(probe: Probe): (r: Result<seq<string>>)
    requires probe.WellFormed()
    ensures r.Ok? <==> !probe.StatError? && !probe.ReadDirError?
    ensures probe.StatError? ==> r == Fatal(StatFailed)
    ensures probe.ReadDirError? ==> r == Fatal(ReadDirFailed)
    ensures probe.NotExist? || probe.NotDirectory? ==> r == Ok([])
    ensures probe.Directory? ==> |r.value| == |probe.names|
    ensures probe.Directory? ==>
      forall k :: 0 <= k < |probe.names| ==> r.value[k] == IbDevicePath + "/" + probe.names[k]
    ensures r.Ok? ==> forall j, k :: 0 <= j < k < |r.value| ==> r.value[j] != r.value[k]
  {
    match probe
    case NotExist => Ok([])
    case StatError => Fatal(StatFailed)
    case NotDirectory => Ok([])
    case ReadDirError => Fatal(ReadDirFailed)
    case Directory(names) =>
      DevicePathsDistinct(names);
      Ok(DevicePaths(names))
  }

  // ---------------------------------------------------------------------------
  // Constant RPCs

  function GetDevicePluginOptions(): (options: DevicePluginOptions)
    ensures !options.preStartRequired
    ensures !options.getPreferredAllocationAvailable
  {
    DevicePluginOptions(false, false)
  }

  /** No allocation hint, whatever was asked. */
  function GetPreferredAllocation(req: PreferredAllocationRequest): (r: PreferredAllocationResponse)
    ensures r.containerResponses == []
  {
    PreferredAllocationResponse([])
  }

  /** A no-op; its response carries no data. */
  function PreStartContainer(req: PreStartContainerRequest): PreStartContainerResponse {
    PreStartContainerResponse
  }

  // ---------------------------------------------------------------------------
  // The plugin

  class IbDevicePlugin {
    /** The advertised units, rewritten in place by the health stream. */
    const devs: array<Unit>
    /** Host device paths handed out by every non-empty allocation; read
        once at start-up and never re-scanned. */
    const devices: seq<string>

    /** The units are exactly those a freshly built plugin holds. */
    ghost predicate AsBuilt()
      reads this, devs
    {
      devs[..] == Inventory(devs.Length)
    }

    constructor (devs: array<Unit>, devices: seq<string>)
      ensures this.devs == devs && this.devices == devices
    {
      this.devs := devs;
      this.devices := devices;
    }

    /** One pass of the health stream's refresh loop: every unit is marked
        Healthy in place. */
    method RefreshHealth()
      modifies devs
      ensures devs[..] == Refreshed(old(devs[..]))
      ensures Ids(devs[..]) == Ids(old(devs[..]))
      ensures forall k :: 0 <= k < devs.Length ==> devs[k].health == Healthy
      ensures old(AsBuilt()) ==> AsBuilt() && devs[..] == old(devs[..])
    {
      for i := 0 to devs.Length
        invariant forall k :: 0 <= k < i ==> devs[k] == Unit(old(devs[k]).id, Healthy)
        invariant forall k :: i <= k < devs.Length ==> devs[k] == old(devs[k])
      {
        devs[i] := devs[i].(health := Healthy);
      }
      ghost var before := old(devs[..]);
      forall k | 0 <= k < devs.Length
        ensures devs[..][k] == Refreshed(before)[k]
      {
        RefreshedAt(before, k);
      }
      assert devs[..] == Refreshed(before);
      RefreshKeepsIds(before);
      RefreshAllHealthy(before);
      assert forall k :: 0 <= k < devs.Length ==> devs[..][k] in Refreshed(before);
      if old(AsBuilt()) {
        RefreshInventory(devs.Length);
      }
    }

    /** Maps each container request, by position, to its response: no
        mounts for a request naming no units, otherwise every device path
        mounted read-write at the same path, whatever IDs were named. */
    method Allocate(reqs: seq<ContainerAllocateRequest>) returns (resp: AllocateResponse)
      ensures |resp.containerResponses| == |reqs|
      ensures forall i :: 0 <= i < |reqs| && reqs[i].devicesIds == [] ==>
        resp.containerResponses[i].devices == []
      ensures forall i :: 0 <= i < |reqs| && reqs[i].devicesIds != [] ==>
        |resp.containerResponses[i].devices| == |devices|
      ensures forall i, k :: 0 <= i < |reqs| && reqs[i].devicesIds != [] && 0 <= k < |devices| ==>
        resp.containerResponses[i].devices[k] == DeviceSpec(devices[k], devices[k], ReadWrite)
    {
      var responses := new ContainerAllocateResponse[|reqs|];
      for i := 0 to |reqs|
        invariant forall j :: 0 <= j < i && reqs[j].devicesIds == [] ==> responses[j].devices == []
        invariant forall j :: 0 <= j < i && reqs[j].devicesIds != [] ==>
          |responses[j].devices| == |devices|
        invariant forall j, k :: 0 <= j < i && reqs[j].devicesIds != [] && 0 <= k < |devices| ==>
          responses[j].devices[k] == DeviceSpec(devices[k], devices[k], ReadWrite)
      {
        responses[i] := ContainerAllocateResponse([]);
        if |reqs[i].devicesIds| == 0 {
          continue;
        }
        var specs := new DeviceSpec[|devices|];
        ghost var done := responses[..];
        for k := 0 to |devices|
          invariant responses[..] == done
          invariant forall m :: 0 <= m < k ==> specs[m] == DeviceSpec(devices[m], devices[m], ReadWrite)
        {
          specs[k] := DeviceSpec(devices[k], devices[k], ReadWrite);
        }
        responses[i] := responses[i].(devices := specs[..]);
      }
      resp := AllocateResponse(responses[..]);
    }
  }

  /** Builds the plugin for `resourceAmount` units from the probe of the
      device directory. */
  method NewIbDevicePlugin(resourceAmount: int, probe: Probe) returns (r: Result<IbDevicePlugin>)
    requires probe.WellFormed()
    ensures resourceAmount < 0 ==> r.Fatal? && r.failure == MakeSlicePanic
    ensures resourceAmount >= 0 && ProbeDevicePaths(probe).Fatal? ==>
      r.Fatal? && r.failure == ProbeDevicePaths(probe).failure
    ensures r.Ok? <==> resourceAmount >= 0 && ProbeDevicePaths(probe).Ok?
    ensures r.Ok? ==> fresh(r.value) && fresh(r.value.devs)
    ensures r.Ok? ==> r.value.devs[..] == Inventory(resourceAmount) && r.value.AsBuilt()
    ensures r.Ok? ==> r.value.devices == ProbeDevicePaths(probe).value
    ensures r.Ok? ==> forall j, k :: 0 <= j < k < |r.value.devices| ==> r.value.devices[j] != r.value.devices[k]
  {
    if resourceAmount < 0 {
      return Fatal(MakeSlicePanic);
    }
    var devs := new Unit[resourceAmount];
    for i := 0 to resourceAmount
      invariant forall k :: 0 <= k < i ==> devs[k] == Unit(UnitId(k), Healthy)
    {
      devs[i] := Unit(UnitId(i), Healthy);
    }
    assert devs[..] == Inventory(resourceAmount);

    var devices: seq<string> := [];
    match probe {
      case NotExist =>
      case StatError =>
        return Fatal(StatFailed);
      case NotDirectory =>
      case ReadDirError =>
        return Fatal(ReadDirFailed);
      case Directory(names) =>
        for j := 0 to |names|
          invariant |devices| == j
          invariant forall k :: 0 <= k < j ==> devices[k] == DevicePath(names[k])
        {
          devices := devices + [DevicePath(names[j])];
        }
    }

    var p := new IbDevicePlugin(devs, devices);
    return Ok(p);
  }
}
