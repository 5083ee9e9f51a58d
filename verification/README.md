# Android permission manager demo — Dafny model

This project models the logic core of a small Android demo app that requests
runtime permissions. It has two parts.

- **The permission taxonomy** (`permissions.dfy`, module `Permissions`). This
  is the sealed class `Permission`. It has four variants: `Camera`,
  `MandatoryForFeatureOne`, `Location` and `Storage`. Each variant holds a
  fixed, ordered list of platform permission identifiers. The reverse lookup
  `Permission.from` maps one identifier back to a variant, and throws
  "Unknown permission: <id>" for any other string. The model returns that
  exception as the `UnknownPermission` case of a `Lookup` value.
- **The pure parts of the main screen** (`main_screen.dfy`, module
  `MainScreen`):
  - the camera and bundled flows show a green "success" banner when the grant
    answer is true, and a red "error" banner otherwise;
  - the detailed flow shows full success only when every entry of the
    per-variant result is granted, and otherwise opens the
    "Missing permissions" dialog;
  - the dialog message is a fold that adds one line,
    `label(variant) + ": " + value + "\n"`, for each result entry in order.

The per-variant result map is modelled as an ordered sequence of
`(Permission, bool)` entries, because the fold follows the map's entry order.
Booleans are shown as `"true"` and `"false"`, as a Kotlin string template
shows them.

The platform identifiers are written as the literal
`android.Manifest.permission` values, such as `"android.permission.CAMERA"`.
No result depends on these exact strings, only on their being pairwise
distinct; `AllIdsDistinct` records that the five are distinct.

`text.dfy` (module `Text`) holds line helpers: counting line breaks and
splitting a text back into lines. `wrappers.dfy` holds an `Option` type. These
are used only to state what the dialog text contains.

Two facts about the code are worth stating plainly.

- Ownership is not unique. `MandatoryForFeatureOne` lists
  `WRITE_EXTERNAL_STORAGE` and `ACCESS_FINE_LOCATION`, so it shares one
  identifier with `Storage` and one with `Location` (`Overlaps`,
  `OwnershipNotUnique`). Disjointness holds only among the three variants that
  the lookup can return (`LookupVariantsDisjoint`).
- The dialog lists every entry of the result, granted ones included
  (`CameraDeniedScenario`, `OnDetailedResult`).

## Model

| member | source | states |
|---|---|---|
| `Permissions.Identifiers` | app/src/main/java/com/kinandcarta/permissionmanager/permissions/Permission.kt:5-14 | each variant's identifier list is non-empty, repeats no identifier, and takes its entries from the five platform identifiers |
| `Permissions.From` | app/src/main/java/com/kinandcarta/permissionmanager/permissions/Permission.kt:17-23 | the lookup succeeds exactly when some variant lists the identifier; the variant it returns lists that identifier; it never returns MandatoryForFeatureOne; on failure it carries the message "Unknown permission: " followed by the identifier |
| `Permissions.KnownIdsAreTheFive` | app/src/main/java/com/kinandcarta/permissionmanager/permissions/Permission.kt:18-22 | an identifier is known exactly when it is one of the five platform identifiers; every other string takes the error branch |
| `Permissions.FromRoundTrip` | app/src/main/java/com/kinandcarta/permissionmanager/permissions/Permission.kt:18-21 | every identifier of Camera, Location or Storage looks up to that same variant (fine and coarse location give Location; write and read storage give Storage; camera gives Camera) |
| `Permissions.MandatoryRoundTripFails` | app/src/main/java/com/kinandcarta/permissionmanager/permissions/Permission.kt:10-20 | the round trip fails for MandatoryForFeatureOne: its first identifier looks up to Storage and its second to Location, and none of its identifiers looks up to the bundle itself |
| `Permissions.MandatoryCoveredByLocationAndStorage` | app/src/main/java/com/kinandcarta/permissionmanager/permissions/Permission.kt:10-14 | each identifier of MandatoryForFeatureOne belongs to Location or to Storage, and never to both |
| `Permissions.Overlaps` | app/src/main/java/com/kinandcarta/permissionmanager/permissions/Permission.kt:10-14 | Location and Storage share no identifier; MandatoryForFeatureOne shares exactly fine location with Location and exactly write storage with Storage |
| `Permissions.LookupVariantsDisjoint` | app/src/main/java/com/kinandcarta/permissionmanager/permissions/Permission.kt:7-21 | any two different variants among Camera, Location and Storage have disjoint identifier lists |
| `Permissions.OwnershipNotUnique` | app/src/main/java/com/kinandcarta/permissionmanager/permissions/Permission.kt:10-13 | across all four variants, some identifier is listed by two different variants |
| `MainScreen.Requested` | app/src/main/java/com/kinandcarta/permissionmanager/ui/main/MainFragment.kt:41-69 | each flow requests at least one variant and no variant twice: the camera flow requests Camera, the bundled flow MandatoryForFeatureOne, the detailed flow Storage, Location and Camera but not the bundle |
| `MainScreen.RequestedIds` | app/src/main/java/com/kinandcarta/permissionmanager/ui/main/MainFragment.kt:69 | an identifier is requested exactly when one of the requested variants lists it |
| `MainScreen.EverythingCoversAll` | app/src/main/java/com/kinandcarta/permissionmanager/ui/main/MainFragment.kt:55-69 | the detailed flow requests an identifier exactly when the taxonomy knows it, so it covers every identifier the bundled flow requests |
| `MainScreen.OnCameraResult` | app/src/main/java/com/kinandcarta/permissionmanager/ui/main/MainFragment.kt:43-48 | the camera flow always shows a banner; the banner is the success one exactly when the grant answer is true, with the success text, and otherwise shows the error text |
| `MainScreen.OnBundledResult` | app/src/main/java/com/kinandcarta/permissionmanager/ui/main/MainFragment.kt:57-62 | the bundled flow always shows a banner; the banner is the success one exactly when the grant answer is true, with the success text, and otherwise shows the error text |
| `MainScreen.AllGranted` | app/src/main/java/com/kinandcarta/permissionmanager/ui/main/MainFragment.kt:72 | the entry-by-entry check is true exactly when every entry of the result is granted |
| `MainScreen.OnDetailedResult` | app/src/main/java/com/kinandcarta/permissionmanager/ui/main/MainFragment.kt:72-92 | full success exactly when every entry is granted; the dialog exactly when some entry is denied; the dialog has the title "Missing permissions", its message has exactly one line break per entry, and its lines are the lines of all entries, in order |
| `MainScreen.EmptyResultIsSuccess` | app/src/main/java/com/kinandcarta/permissionmanager/ui/main/MainFragment.kt:72-73 | an empty result counts as full success |
| `MainScreen.FoldLines` | app/src/main/java/com/kinandcarta/permissionmanager/ui/main/MainFragment.kt:87-89 | the left fold over the entries returns the start text followed by each entry's line, in entry order |
| `MainScreen.DialogMessage` | app/src/main/java/com/kinandcarta/permissionmanager/ui/main/MainFragment.kt:87-89 | the message has exactly one line break per entry, and splitting it into lines gives `label: value` for each entry, in entry order, granted entries included |
| `MainScreen.DialogMessageAppend` | app/src/main/java/com/kinandcarta/permissionmanager/ui/main/MainFragment.kt:87-89 | appending an entry to the result appends exactly that entry's line to the message and leaves the earlier text unchanged |
| `MainScreen.DialogMessageConcat` | app/src/main/java/com/kinandcarta/permissionmanager/ui/main/MainFragment.kt:87-89 | the message of two concatenated results is the concatenation of their messages, so a result's message is a prefix of the message of any extension of it |
| `MainScreen.DialogMessageRoundTrip` | app/src/main/java/com/kinandcarta/permissionmanager/ui/main/MainFragment.kt:86-102 | reading the dialog message back line by line recovers the result: every variant and its value, in order |
| `MainScreen.Label` | app/src/main/java/com/kinandcarta/permissionmanager/ui/main/MainFragment.kt:97-102 | every label is free of line breaks, so each entry takes exactly one dialog line |
| `MainScreen.LabelInjective` | app/src/main/java/com/kinandcarta/permissionmanager/ui/main/MainFragment.kt:97-102 | the four variants get four different labels, so a label names its variant, MandatoryForFeatureOne's "Unknown permission" included |
| `MainScreen.LineBodyInjective` | app/src/main/java/com/kinandcarta/permissionmanager/ui/main/MainFragment.kt:97-102 | two different entries never produce the same dialog line, so the four labels are distinct |
| `MainScreen.LinesAsShown` | app/src/main/java/com/kinandcarta/permissionmanager/ui/main/MainFragment.kt:88-102 | the dialog line of each variant: Camera's line reads "Camera permission: : value", because its label keeps its own colon and space; Location and Storage read "Location permission: value" and "Storage permission: value"; MandatoryForFeatureOne falls to "Unknown permission: value" |
| `MainScreen.EverythingGrantedScenario` | app/src/main/java/com/kinandcarta/permissionmanager/ui/main/MainFragment.kt:69-74 | with Storage, Location and Camera all granted, the detailed flow shows the full-access banner and never the dialog |
| `MainScreen.CameraDeniedScenario` | app/src/main/java/com/kinandcarta/permissionmanager/ui/main/MainFragment.kt:69-89 | with Storage and Location granted and Camera denied, the dialog opens and lists all three entries, the two granted ones included |

## Left out

- `PermissionManager` is not part of this model. It owns the asynchronous OS permission dialog through `request`, `rationale`, `checkPermission` and `checkDetailedPermission`. Its grant answer, and its per-variant result, are inputs to the model. `Requested` records only which variants each flow hands to it.
- The rationale texts passed to `rationale` are not modelled. They go only to `PermissionManager`.
- Snackbar creation and the background colours `#09AF00` and `#B00020` are left out, because they are platform UI calls. The model keeps only the success/error tone and the banner text.
- `AlertDialog` presentation and `Log.i` are left out, because they are platform calls. The model keeps the dialog title and message.
- `clearApplicationUserData` is left out. It is a platform side effect with no result that the code reads.
- The fragment lifecycle, view binding and inflation, click-listener wiring and `newInstance` are left out. They are Android glue.
- The result is a sequence, so unlike the Kotlin `Map` it may repeat a key. No property here needs unique keys, so every property also holds for the results a map can produce. The map's iteration order comes from `PermissionManager`, so the model takes whatever order the sequence has.
- The model does not produce a thrown exception. `Permission.from`'s exception is returned as the `UnknownPermission` value, with the same message text.
