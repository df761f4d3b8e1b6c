# InfiniBand device plugin — Dafny model

A model of the InfiniBand device plugin for the kubelet device-plugin
protocol (API v1beta1). The plugin advertises a fixed number of logical
units, all Healthy, under IDs `ib-plugin/infiniband-<k>`. It discovers the
device nodes under `/dev/infiniband` once at start-up. Every allocation that
names at least one unit bind-mounts all of those nodes read-write at the
same path in the container.

- `decimal.dfy`, module `Decimal`: the `%d` rendering of a non-negative
  integer. Parsing it back gives the number, so distinct unit indices give
  distinct unit IDs.
- `plugin.dfy`, module `IbPlugin`:
  - the protocol messages as datatypes;
  - the probe of the device directory as an input value (`Probe`);
  - the specification functions `Inventory`, `Refreshed`, `DevicePaths`
    and `ProbeDevicePaths`, with lemmas about them;
  - the constant RPCs `GetDevicePluginOptions`, `GetPreferredAllocation`
    and `PreStartContainer` (main.go:195-197). `PreStartContainer` returns
    the one value of a field-less response, so it has no contract to state
    and no row in the table below;
  - the class `IbDevicePlugin`, whose fields are `devs` (an array of units
    rewritten in place) and `devices` (the device-path list). Its methods
    are `RefreshHealth` (one pass of the health stream's refresh loop) and
    `Allocate`;
  - `NewIbDevicePlugin`, which fills the unit array and appends device
    paths in loops, as the source does.

The code accepts a unit count of 0. A negative count makes `make` panic
(main.go:34) before the directory is probed; the model reports this as
`Fatal(MakeSlicePanic)`.

## Model

| member | source | states |
|---|---|---|
| `Decimal.Format` | main.go:37 | the `%d` rendering is a non-empty string of decimal digits with no leading zero |
| `Decimal.ParseFormat` | main.go:37 | reading the rendering back as a decimal number gives the number |
| `Decimal.FormatInjective` | main.go:35-37 | two indices render the same exactly when they are equal |
| `IbPlugin.UnitIdInjective` | main.go:35-37 | unit IDs `ib-plugin/infiniband-<k>` are equal exactly when their indices are |
| `IbPlugin.InventoryDistinctHealthy` | main.go:34-40 | a plugin built for N units has exactly N units, all Healthy, with pairwise distinct IDs |
| `IbPlugin.Refreshed` | main.go:160-162 | a refresh pass keeps the number of units |
| `IbPlugin.RefreshedAt` | main.go:160-162 | after a refresh, unit k keeps its ID and is Healthy |
| `IbPlugin.RefreshKeepsIds` | main.go:160-162 | a refresh pass keeps the unit IDs and their order |
| `IbPlugin.RefreshAllHealthy` | main.go:160-162 | after a refresh pass every unit is Healthy |
| `IbPlugin.RefreshIdempotent` | main.go:160-162 | a second refresh pass changes nothing |
| `IbPlugin.RefreshInventory` | main.go:156-163 | refreshing a freshly built inventory leaves it unchanged, so every snapshot the health stream sends equals the first one |
| `IbPlugin.DevicePathInjective` | main.go:56 | two directory entries join to the same device path exactly when they are equal |
| `IbPlugin.DevicePaths` | main.go:55-57 | one path `/dev/infiniband/<name>` per directory entry, in entry order |
| `IbPlugin.DevicePathsDistinct` | main.go:51-57 | distinct directory entries give distinct device paths |
| `IbPlugin.ProbeDevicePaths` | main.go:42-62 | a missing path or a non-directory gives an empty list; a stat error other than not-exist, or an unreadable directory, is fatal; a readable directory gives one path per entry in order, all distinct |
| `IbPlugin.GetDevicePluginOptions` | main.go:148-153 | no pre-start hook is required and no preferred-allocation hint is available |
| `IbPlugin.GetPreferredAllocation` | main.go:167-169 | the hint holds no container responses, whatever was asked |
| `IbPlugin.IbDevicePlugin.constructor` | main.go:64-67 | the plugin holds exactly the unit array and device-path list it is built from |
| `IbPlugin.IbDevicePlugin.RefreshHealth` | main.go:160-162 | in place, every unit becomes Healthy with its ID and position unchanged; a plugin in its built state stays unchanged |
| `IbPlugin.IbDevicePlugin.Allocate` | main.go:171-193 | one response per container request, by position; no mounts for a request naming no units; otherwise mount k is `(devices[k], devices[k], "rw")` for every device path, whatever IDs were named; the plugin's state is not modified |
| `IbPlugin.NewIbDevicePlugin` | main.go:33-68 | a negative count panics; otherwise the units are `Inventory(N)` (N Healthy units with distinct IDs) and the device paths are those `ProbeDevicePaths` gives, pairwise distinct, or construction fails exactly when the probe is fatal |

## Left out

- The gRPC server, `dial`, and the registration call in `Start` (main.go:70-83, 100-136) are left out: they are network plumbing over a library outside this model.
- Socket-file stat, remove and listen in `Start` and `Stop` (main.go:86-99, 141-146) are left out: they are operating-system I/O.
- `ListAndWatch`: the ten-second sleep and the stream sends (main.go:156-164) are left out, because they are timers and stream I/O. One refresh pass is modelled as `RefreshHealth`. `RefreshInventory` states what every emitted snapshot holds.
- Concurrent RPC goroutines reading `devs` while the health stream rewrites it are not modelled.
- Units are values in an array, not pointers to shared records, so aliasing of the `*Device` pointers handed to the stream is not modelled.
- Flag parsing, signal handling and the blocking `main` (main.go:199-222) are process wiring and are left out.
- Logging is left out. `log.Fatalf` becomes a `Fatal` result.
- `os.Stat` and `os.ReadDir` are replaced by the `Probe` input. The entries of a readable directory are taken in the order given.
- `path.Join` is modelled as `"/dev/infiniband/" + name`. `NewIbDevicePlugin` and `ProbeDevicePaths` require what readdir guarantees of entry names: pairwise distinct, non-empty, no `/`, not `.` or `..`. Cleaning of other names is not modelled.
- `fmt.Sprintf("%d")` is modelled only for non-negative indices, the only ones the loop produces.
- Request fields other than the unit IDs are not modelled, because `Allocate` reads nothing else. The same holds for the fields of the preferred-allocation and pre-start requests.
