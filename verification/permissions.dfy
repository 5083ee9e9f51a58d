/**
 The permission taxonomy of the app: a closed set of four variants, each
 standing for a fixed, ordered list of Android platform permission
 identifiers, and the reverse lookup `from` that maps one identifier back to
 the variant that owns it (or fails with "Unknown permission").

 The identifiers are the values of `android.Manifest.permission`; the model
 relies only on the five of them being pairwise distinct.
 */
module Permissions {

  const CameraId: string := "android.permission.CAMERA"
  const WriteExternalStorageId: string := "android.permission.WRITE_EXTERNAL_STORAGE"
  const ReadExternalStorageId: string := "android.permission.READ_EXTERNAL_STORAGE"
  const AccessFineLocationId: string := "android.permission.ACCESS_FINE_LOCATION"
  const AccessCoarseLocationId: string := "android.permission.ACCESS_COARSE_LOCATION"

  /** The five identifiers the taxonomy mentions. */
  const AllIds: seq<string> :=
    [CameraId, WriteExternalStorageId, ReadExternalStorageId, AccessFineLocationId, AccessCoarseLocationId]

  /** The variants of the sealed class `Permission`. */
  datatype Permission = Camera | MandatoryForFeatureOne | Location | Storage

  /** True when no value occurs twice in `s`. */
  predicate Distinct<T(==)>(s: seq<T>) {
    forall i, j :: 0 <= i < j < |s| ==> s[i] != s[j]
  }

  /** The five identifiers really are five different strings. */
  lemma AllIdsDistinct()
    ensures |AllIds| == 5 && Distinct(AllIds)
  {
  }

  /** The ordered platform identifiers a variant is requested as. */
  function Identifiers(p: Permission): (ids: seq<string>)
    ensures |ids| > 0
    ensures Distinct(ids)
    ensures forall id :: id in ids ==> id in AllIds
  {
    match p
    case Camera => [CameraId]
    case MandatoryForFeatureOne => [WriteExternalStorageId, AccessFineLocationId]
    case Location => [AccessFineLocationId, AccessCoarseLocationId]
    case Storage => [WriteExternalStorageId, ReadExternalStorageId]
  }

  /** True when some variant lists `id` among its identifiers. */
  ghost predicate IsKnown(id: string) {
    exists p: Permission :: id in Identifiers(p)
  }

  /** Identifiers listed by both `p` and `q`. */
  function Shared(p: Permission, q: Permission): set<string> {
    set id | id in Identifiers(p) && id in Identifiers(q)
  }

  /** Outcome of the reverse lookup: the owning variant, or the
      `IllegalArgumentException` that `Permission.from` throws, with its message. */
  datatype Lookup = Found(variant: Permission) | UnknownPermission(message: string)

  /** Reverse lookup from one platform identifier to a variant (`Permission.from`). */
  function From(id: string): (r: Lookup)
    ensures r.Found? <==> IsKnown(id)
    ensures r.Found? ==> id in Identifiers(r.variant)
    ensures r != Found(MandatoryForFeatureOne)
    ensures r.UnknownPermission? ==> r.message == "Unknown permission: " + id
  {
    KnownIdsAreTheFive(id);
    if id == AccessFineLocationId || id == AccessCoarseLocationId then Found(Location)
    else if id == WriteExternalStorageId || id == ReadExternalStorageId then Found(Storage)
    else if id == CameraId then Found(Camera)
    else UnknownPermission("Unknown permission: " + id)
  }

  /** An identifier is known exactly when it is one of the five. */
  lemma KnownIdsAreTheFive(id: string)
    ensures IsKnown(id) <==> id in AllIds
  {
    if id in AllIds {
      var p := if id == CameraId then Camera
               else if id == WriteExternalStorageId || id == ReadExternalStorageId then Storage
               else Location;
      assert id in Identifiers(p);
    }
  }

  /** Round trip for the variants the lookup can produce: every identifier
      of Camera, Location and Storage maps back to that same variant. */
  lemma FromRoundTrip(p: Permission, id: string)
    requires p != MandatoryForFeatureOne
    requires id in Identifiers(p)
    ensures From(id) == Found(p)
  {
  }

  /** The round trip fails for MandatoryForFeatureOne: each of its
      identifiers is found, but as Storage or Location respectively. */
  lemma MandatoryRoundTripFails()
    ensures From(Identifiers(MandatoryForFeatureOne)[0]) == Found(Storage)
    ensures From(Identifiers(MandatoryForFeatureOne)[1]) == Found(Location)
    ensures forall id :: id in Identifiers(MandatoryForFeatureOne) ==>
              From(id).Found? && From(id).variant != MandatoryForFeatureOne
  {
  }

  /** The bundle MandatoryForFeatureOne adds no identifier of its own:
      each of its identifiers belongs to Location or to Storage. */
  lemma MandatoryCoveredByLocationAndStorage(id: string)
    requires id in Identifiers(MandatoryForFeatureOne)
    ensures id in Identifiers(Location) + Identifiers(Storage)
    ensures id in Identifiers(Location) <==> id !in Identifiers(Storage)
  {
  }

  /** Location and Storage are disjoint, while MandatoryForFeatureOne
      shares exactly one identifier with each of them. */
  lemma Overlaps()
    ensures Shared(Location, Storage) == {}
    ensures Shared(MandatoryForFeatureOne, Location) == {AccessFineLocationId}
    ensures Shared(MandatoryForFeatureOne, Storage) == {WriteExternalStorageId}
  {
  }

  /** The variants the lookup can return own pairwise disjoint identifier
      lists, so among them each identifier has exactly one owner. */
  lemma LookupVariantsDisjoint(p: Permission, q: Permission)
    requires p != MandatoryForFeatureOne && q != MandatoryForFeatureOne
    requires p != q
    ensures Shared(p, q) == {}
  {
  }

  /** Across all four variants ownership is not unique: one identifier is
      listed by two different variants. */
  lemma OwnershipNotUnique()
    ensures exists id, p: Permission, q: Permission ::
              p != q && id in Identifiers(p) && id in Identifiers(q)
  {
    assert AccessFineLocationId in Identifiers(MandatoryForFeatureOne);
    assert AccessFineLocationId in Identifiers(Location);
  }
}
