/**
 The pure decisions and text of the app's single screen: which banner a
 single grant answer shows, whether a per-variant result counts as full
 success or opens the missing-permissions dialog, the label shown for each
 variant, and the dialog message folded from the result entries.

 The per-variant result is an ordered sequence of (variant, granted)
 entries, in the order the result map yields them.
 */
module MainScreen {
  import opened Wrappers
  import opened Permissions
  import opened Text

  /** One entry of a detailed result: a requested variant and whether it was granted. */
  type Entry = (Permission, bool)

  /** The three permission flows of the screen. */
  datatype Flow = CameraFlow | BundledFlow | EverythingFlow

  /** The variants each flow hands to the permission manager, in order. */
  function Requested(f: Flow): (ps: seq<Permission>)
    ensures |ps| > 0
    ensures Distinct(ps)
    ensures f == EverythingFlow ==>
              Storage in ps && Location in ps && Camera in ps && MandatoryForFeatureOne !in ps
    ensures f == CameraFlow ==> ps == [Camera]
    ensures f == BundledFlow ==> ps == [MandatoryForFeatureOne]
  {
    match f
    case CameraFlow => [Camera]
    case BundledFlow => [MandatoryForFeatureOne]
    case EverythingFlow => [Storage, Location, Camera]
  }

  /** The platform identifiers behind the variants of a flow. */
  function RequestedIds(ps: seq<Permission>): (ids: seq<string>)
    ensures forall id :: id in ids <==> exists i :: 0 <= i < |ps| && id in Identifiers(ps[i])
  {
    if |ps| == 0 then []
    else Identifiers(ps[0]) + RequestedIds(ps[1..])
  }

  /** The detailed flow asks for every identifier the taxonomy knows, and so
      covers everything the bundled flow asks for. */
  lemma EverythingCoversAll(id: string)
    ensures id in RequestedIds(Requested(EverythingFlow)) <==> IsKnown(id)
    ensures id in RequestedIds(Requested(BundledFlow)) ==> id in RequestedIds(Requested(EverythingFlow))
  {
  }

  /** How an outcome is shown: a coloured banner or a modal dialog. */
  datatype Tone = Success | Error
  datatype Screen = Banner(tone: Tone, text: string) | Dialog(title: string, message: string)

  const CameraGranted := "We can see your face :)"
  const CameraDenied := "We couldn't access the camera :("
  const BundledGranted := "YES! Now I can access Storage and Location!"
  const BundledDenied := "Still missing at least one permission :("
  const FullAccess := "YES! Now I have full access :D"
  const DialogTitle := "Missing permissions"

  /** Answer of the camera flow. */
  function OnCameraResult(granted: bool): (s: Screen)
    ensures s.Banner?
    ensures s.tone == Success <==> granted
    ensures s.text == (if granted then CameraGranted else CameraDenied)
  {
    if granted then Banner(Success, CameraGranted) else Banner(Error, CameraDenied)
  }

  /** Answer of the bundled flow. */
  function OnBundledResult(granted: bool): (s: Screen)
    ensures s.Banner?
    ensures s.tone == Success <==> granted
    ensures s.text == (if granted then BundledGranted else BundledDenied)
  {
    if granted then Banner(Success, BundledGranted) else Banner(Error, BundledDenied)
  }

  /** True when every entry was granted (Kotlin's `all { it.value }`). */
  function AllGranted(result: seq<Entry>): (b: bool)
    ensures b <==> forall i :: 0 <= i < |result| ==> result[i].1
  {
    |result| == 0 || (result[0].1 && AllGranted(result[1..]))
  }

  /** Text shown for a boolean inside a Kotlin string template. */
  function Show(b: bool): (s: string)
    ensures NewlineFree(s)
  {
    if b then "true" else "false"
  }

  /** The label the dialog uses for a variant (`getErrorMessageFor`). */
  function Label(p: Permission): (s: string)
    ensures NewlineFree(s)
  {
    match p
    case Camera => "Camera permission: "
    case Location => "Location permission"
    case Storage => "Storage permission"
    case MandatoryForFeatureOne => "Unknown permission"
  }

  /** Different variants get different labels. */
  lemma LabelInjective(p: Permission, q: Permission)
    requires Label(p) == Label(q)
    ensures p == q
  {
  }

  /** One dialog line without its terminating line break. */
  function LineBody(e: Entry): (s: string)
    ensures NewlineFree(s)
  {
    Label(e.0) + ": " + Show(e.1)
  }

  /** One dialog line. */
  function Line(e: Entry): string {
    LineBody(e) + "\n"
  }

  /** Reference reading of the message: the entries' lines, in entry order. */
  function Lines(entries: seq<Entry>): string {
    if |entries| == 0 then "" else Line(entries[0]) + Lines(entries[1..])
  }

  /** The fold of `showErrorDialog`: `acc` grows by one line per entry. */
  function FoldLines(acc: string, entries: seq<Entry>): (r: string)
    ensures r == acc + Lines(entries)
    decreases |entries|
  {
    if |entries| == 0 then acc
    else
      AppendAssociative(acc, Line(entries[0]), Lines(entries[1..]));
      FoldLines(acc + Line(entries[0]), entries[1..])
  }

  /** The missing-permissions dialog message for a detailed result. */
  function DialogMessage(result: seq<Entry>): (r: string)
    ensures NewlineCount(r) == |result|
    ensures SplitLines(r) == LineBodies(result)
  {
    var r := FoldLines("", result);
    assert r == Lines(result);
    LinesNewlineCount(result);
    SplitLinesOfLines(result);
    r
  }

  /** The line bodies of the entries, in entry order. */
  function LineBodies(entries: seq<Entry>): (bodies: seq<string>)
    ensures |bodies| == |entries|
    ensures forall i :: 0 <= i < |entries| ==> bodies[i] == LineBody(entries[i])
  {
    seq(|entries|, i requires 0 <= i < |entries| => LineBody(entries[i]))
  }

  lemma {:induction false} LinesNewlineCount(entries: seq<Entry>)
    ensures NewlineCount(Lines(entries)) == |entries|
    decreases |entries|
  {
    if |entries| > 0 {
      var e := entries[0];
      NewlineCountAppend(LineBody(e), "\n");
      NewlineCountAppend(Line(e), Lines(entries[1..]));
      LinesNewlineCount(entries[1..]);
    }
  }

  lemma {:induction false} SplitLinesOfLines(entries: seq<Entry>)
    ensures SplitLines(Lines(entries)) == LineBodies(entries)
    decreases |entries|
  {
    if |entries| > 0 {
      var e := entries[0];
      assert Lines(entries) == LineBody(e) + "\n" + Lines(entries[1..]);
      SplitLinesCons(LineBody(e), Lines(entries[1..]));
      SplitLinesOfLines(entries[1..]);
      assert LineBodies(entries) == [LineBody(e)] + LineBodies(entries[1..]);
    }
  }

  /** Answer of the detailed flow: full success exactly when every entry was
      granted, otherwise the dialog listing every entry. */
  function OnDetailedResult(result: seq<Entry>): (s: Screen)
    ensures s.Banner? <==> forall i :: 0 <= i < |result| ==> result[i].1
    ensures s.Dialog? <==> exists i :: 0 <= i < |result| && !result[i].1
    ensures s.Banner? ==> s == Banner(Success, FullAccess)
    ensures s.Dialog? ==> s.title == DialogTitle
    ensures s.Dialog? ==> NewlineCount(s.message) == |result| && SplitLines(s.message) == LineBodies(result)
  {
    if AllGranted(result) then Banner(Success, FullAccess)
    else Dialog(DialogTitle, DialogMessage(result))
  }

  /** Appending an entry appends exactly its line and keeps the earlier text. */
  lemma {:induction false} DialogMessageAppend(result: seq<Entry>, e: Entry)
    ensures DialogMessage(result + [e]) == DialogMessage(result) + Line(e)
  {
    LinesAppend(result, e);
  }

  /** The message of a concatenated result is the concatenation of the
      messages, so an earlier message is a prefix of any later one. */
  lemma DialogMessageConcat(first: seq<Entry>, second: seq<Entry>)
    ensures DialogMessage(first + second) == DialogMessage(first) + DialogMessage(second)
    ensures DialogMessage(first) <= DialogMessage(first + second)
  {
    LinesConcat(first, second);
  }

  lemma {:induction false} LinesConcat(first: seq<Entry>, second: seq<Entry>)
    ensures Lines(first + second) == Lines(first) + Lines(second)
    decreases |first|
  {
    if |first| == 0 {
      assert first + second == second;
    } else {
      assert (first + second)[1..] == first[1..] + second;
      LinesConcat(first[1..], second);
      AppendAssociative(Line(first[0]), Lines(first[1..]), Lines(second));
    }
  }

  lemma {:induction false} LinesAppend(entries: seq<Entry>, e: Entry)
    ensures Lines(entries + [e]) == Lines(entries) + Line(e)
    decreases |entries|
  {
    if |entries| == 0 {
      assert Lines([e]) == Line(e) + Lines([]);
    } else {
      assert (entries + [e])[1..] == entries[1..] + [e];
      LinesAppend(entries[1..], e);
    }
  }

  /** Every entry that can occur, used to read a line back. */
  const AllEntries: seq<Entry> := [
    (Camera, true), (Camera, false),
    (MandatoryForFeatureOne, true), (MandatoryForFeatureOne, false),
    (Location, true), (Location, false),
    (Storage, true), (Storage, false)
  ]

  lemma AllEntriesComplete(e: Entry)
    ensures e in AllEntries
  {
    var (p, b) := e;
    var i := match p
      case Camera => 0
      case MandatoryForFeatureOne => 2
      case Location => 4
      case Storage => 6;
    assert AllEntries[if b then i else i + 1] == e;
  }

  /** Different entries give different lines, so a line names its entry. */
  lemma LineBodyInjective(a: Entry, b: Entry)
    requires LineBody(a) == LineBody(b)
    ensures a == b
  {
    LineBodyShape(a);
    LineBodyShape(b);
  }

  lemma LineBodyShape(e: Entry)
    ensures |LineBody(e)| == |Label(e.0)| + 2 + |Show(e.1)|
    ensures LineBody(e)[0] == Label(e.0)[0]
  {
  }

  /** First candidate whose line is `line`. */
  function FindEntry(line: string, candidates: seq<Entry>): (r: Option<Entry>)
    ensures r.Some? ==> r.value in candidates && LineBody(r.value) == line
    ensures r.None? ==> forall e :: e in candidates ==> LineBody(e) != line
  {
    if |candidates| == 0 then None
    else if LineBody(candidates[0]) == line then Some(candidates[0])
    else FindEntry(line, candidates[1..])
  }

  /** Reads one dialog line back into the entry it shows. */
  function ParseLine(line: string): (r: Option<Entry>)
    ensures r.Some? <==> exists e :: LineBody(e) == line
    ensures r.Some? ==> LineBody(r.value) == line
  {
    FindEntry(line, AllEntries)
  }

  function ParseLines(lines: seq<string>): (r: Option<seq<Entry>>)
    ensures r.Some? ==> |r.value| == |lines|
  {
    if |lines| == 0 then Some([])
    else
      match ParseLine(lines[0])
      case None => None
      case Some(e) =>
        match ParseLines(lines[1..])
        case None => None
        case Some(es) => Some([e] + es)
  }

  /** Reads a whole dialog message back into the result it lists. */
  function ParseMessage(message: string): Option<seq<Entry>> {
    ParseLines(SplitLines(message))
  }

  /** The dialog message determines the result: reading it back yields the
      entries, with their values, in their original order. */
  lemma DialogMessageRoundTrip(result: seq<Entry>)
    ensures ParseMessage(DialogMessage(result)) == Some(result)
  {
    ParseLinesOfBodies(result);
  }

  lemma {:induction false} ParseLinesOfBodies(entries: seq<Entry>)
    ensures ParseLines(LineBodies(entries)) == Some(entries)
    decreases |entries|
  {
    if |entries| > 0 {
      var e := entries[0];
      AllEntriesComplete(e);
      var p := ParseLine(LineBody(e));
      LineBodyInjective(p.value, e);
      assert LineBodies(entries)[1..] == LineBodies(entries[1..]);
      ParseLinesOfBodies(entries[1..]);
      assert [e] + entries[1..] == entries;
    }
  }

  /** The dialog line of each variant as shown. Camera's label keeps its
      own ": ", so its line carries two colons; MandatoryForFeatureOne falls
      to the "Unknown permission" label. */
  lemma LinesAsShown(granted: bool)
    ensures Line((Camera, granted)) == "Camera permission: : " + Show(granted) + "\n"
    ensures Line((Location, granted)) == "Location permission: " + Show(granted) + "\n"
    ensures Line((Storage, granted)) == "Storage permission: " + Show(granted) + "\n"
    ensures Line((MandatoryForFeatureOne, granted)) == "Unknown permission: " + Show(granted) + "\n"
  {
  }

  /** An empty result has no denied entry, so it counts as full success. */
  lemma EmptyResultIsSuccess()
    ensures OnDetailedResult([]) == Banner(Success, FullAccess)
  {
  }

  /** All three variants granted: full success, never the dialog. */
  lemma EverythingGrantedScenario()
    ensures OnDetailedResult([(Storage, true), (Location, true), (Camera, true)]) == Banner(Success, FullAccess)
  {
  }

  /** Camera denied: the dialog opens and lists all three entries, the
      granted ones included. */
  lemma CameraDeniedScenario()
    ensures OnDetailedResult([(Storage, true), (Location, true), (Camera, false)])
            == Dialog(DialogTitle,
                      "Storage permission: true\n" + "Location permission: true\n" + "Camera permission: : false\n")
  {
    var r := [(Storage, true), (Location, true), (Camera, false)];
    assert !r[2].1;
    DialogMessageOfThree(r[0], r[1], r[2]);
    ScenarioLines();
  }

  lemma ScenarioLines()
    ensures Line((Storage, true)) == "Storage permission: true\n"
    ensures Line((Location, true)) == "Location permission: true\n"
    ensures Line((Camera, false)) == "Camera permission: : false\n"
  {
  }

  lemma DialogMessageOfThree(a: Entry, b: Entry, c: Entry)
    ensures DialogMessage([a, b, c]) == Line(a) + Line(b) + Line(c)
  {
    LinesAppend([], a);
    LinesAppend([a], b);
    LinesAppend([a, b], c);
    assert [a] + [b] == [a, b];
    assert [a, b] + [c] == [a, b, c];
  }
}
