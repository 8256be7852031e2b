/** The direct-mail piece table and its upsert. */
module Pieces {
  import opened Common

  type Uuid = nat

  /** Provider slug and external piece id: the unique key. */
  type Key = (string, string)

  datatype Tags = Tags(
    step: Option<Uuid>, channelCampaign: Option<Uuid>, campaign: Option<Uuid>, recipient: Option<Uuid>)

  /** Columns a later upsert only fills or replaces by a value. */
  datatype Known = Known(
    sendDate: Option<string>, costCents: Option<int>, deliverability: Option<string>, metadata: Option<string>)

  datatype Piece = Piece(
    pieceType: string, testMode: bool, createdBy: Option<Uuid>,
    status: string, raw: string, known: Known, tags: Tags)

  /** What the provider returned: the id may be missing or empty. */
  datatype ProviderPiece = ProviderPiece(
    id: Option<string>, status: Option<string>, expectedStatus: Option<string>,
    sendDate: Option<string>, price: Option<real>, text: string)

  datatype Upsert = Upsert(
    provider: string, piece: ProviderPiece, pieceType: string, deliverability: Option<string>,
    createdBy: Option<Uuid>, testMode: bool, metadata: Option<string>, tags: Tags)

  type Pieces = map<Key, Piece>

  predicate Named(v: Option<string>) { v.Some? && v.value != "" }

  /** `a or b or "unknown"`. */
  function StatusOf(p: ProviderPiece): string {
    if Named(p.status) then p.status.value else if Named(p.expectedStatus) then p.expectedStatus.value else "unknown"
  }

  /** Dollars to whole cents, halves to the even cent. */
  function CentsOf(price: Option<real>): Option<int> {
    if price.None? then None else Some(RoundHalfEven(price.value * 100.0))
  }

  /** The nearest whole number of cents, the even one of two. */
  lemma CentsAreNearest(price: real)
    ensures CentsOf(None).None? && CentsOf(Some(price)).Some?
    ensures var cents, error := CentsOf(Some(price)).value, CentsOf(Some(price)).value as real - 100.0 * price;
            -0.5 <= error <= 0.5 && (error == -0.5 || error == 0.5 ==> cents % 2 == 0)
  {
    var c := price * 100.0;
    var down := c.Floor;
    assert down as real <= c < down as real + 1.0;
  }

  /** The row the INSERT proposes (EXCLUDED). */
  function RowOf(u: Upsert): Piece {
    Piece(u.pieceType, u.testMode, u.createdBy, StatusOf(u.piece), u.piece.text,
          Known(u.piece.sendDate, CentsOf(u.piece.price), u.deliverability, u.metadata), u.tags)
  }

  function KeepTags(was: Tags, next: Tags): Tags {
    Tags(was.step.OrElse(next.step), was.channelCampaign.OrElse(next.channelCampaign),
         was.campaign.OrElse(next.campaign), was.recipient.OrElse(next.recipient))
  }

  function Refresh(was: Known, next: Known): Known {
    Known(next.sendDate.OrElse(was.sendDate), next.costCents.OrElse(was.costCents),
          next.deliverability.OrElse(was.deliverability), next.metadata.OrElse(was.metadata))
  }

  /** ON CONFLICT … DO UPDATE. */
  function Merge(row: Piece, proposed: Piece): Piece {
    row.(status := proposed.status, raw := proposed.raw,
         known := Refresh(row.known, proposed.known), tags := KeepTags(row.tags, proposed.tags))
  }

  function KeyOf(u: Upsert): Option<Key> {
    if Named(u.piece.id) then Some((u.provider, u.piece.id.value)) else None
  }

  function Apply(table: Pieces, u: Upsert): Pieces {
    if KeyOf(u).None? then table
    else
      var key := KeyOf(u).value;
      table[key := if key in table then Merge(table[key], RowOf(u)) else RowOf(u)]
  }

  function ApplyAll(table: Pieces, us: seq<Upsert>): Pieces {
    if us == [] then table else Apply(ApplyAll(table, us[..|us| - 1]), us[|us| - 1])
  }

  class PieceTable {
    var pieces: Pieces

    constructor ()
      ensures pieces == map[]
    {
      pieces := map[];
    }

    /** None stands for the ValueError on a missing id. */
    method UpsertPiece(u: Upsert) returns (row: Option<Piece>)
      modifies this
      ensures pieces == Apply(old(pieces), u)
      ensures row.None? <==> !Named(u.piece.id)
      ensures row.Some? ==> KeyOf(u).value in pieces && row.value == pieces[KeyOf(u).value]
    {
      if !Named(u.piece.id) {
        return None;
      }
      var key := (u.provider, u.piece.id.value);
      var proposed := RowOf(u);
      if key in pieces {
        var row := pieces[key];
        row := row.(status := proposed.status, raw := proposed.raw);
        row := row.(known := Refresh(row.known, proposed.known));
        row := row.(tags := KeepTags(row.tags, proposed.tags));
        pieces := pieces[key := row];
      } else {
        pieces := pieces[key := proposed];
      }
      return Some(pieces[key]);
    }
  }

  // ---------- histories ----------

  /** `v` is the first non-null value the upserts of the key carry in a column. */
  ghost predicate IsFirst<T(!new)>(us: seq<Upsert>, key: Key, column: Piece -> Option<T>, v: Option<T>) {
    if v.None? then forall j :: 0 <= j < |us| && KeyOf(us[j]) == Some(key) ==> column(RowOf(us[j])).None?
    else exists k :: 0 <= k < |us| && KeyOf(us[k]) == Some(key) && column(RowOf(us[k])) == v
           && forall j :: 0 <= j < k && KeyOf(us[j]) == Some(key) ==> column(RowOf(us[j])).None?
  }

  /** `v` is the last non-null value the upserts of the key carry in a column. */
  ghost predicate IsLast<T(!new)>(us: seq<Upsert>, key: Key, column: Piece -> Option<T>, v: Option<T>) {
    if v.None? then forall j :: 0 <= j < |us| && KeyOf(us[j]) == Some(key) ==> column(RowOf(us[j])).None?
    else exists k :: 0 <= k < |us| && KeyOf(us[k]) == Some(key) && column(RowOf(us[k])) == v
           && forall j :: k < j < |us| && KeyOf(us[j]) == Some(key) ==> column(RowOf(us[j])).None?
  }

  /** The column keeps its old value when it has one. */
  ghost predicate Keeps<T(!new)>(column: Piece -> Option<T>) {
    forall a, b :: column(Merge(a, b)) == column(a).OrElse(column(b))
  }

  /** The column takes the new value when there is one. */
  ghost predicate Renews<T(!new)>(column: Piece -> Option<T>) {
    forall a, b :: column(Merge(a, b)) == column(b).OrElse(column(a))
  }

  /** A key has a row exactly when some upsert carried it. */
  lemma {:induction false} RowIffTouched(us: seq<Upsert>, key: Key)
    ensures key in ApplyAll(map[], us) <==> exists j :: 0 <= j < |us| && KeyOf(us[j]) == Some(key)
  {
    hide RowOf, KeyOf, Merge;
    if us != [] {
      RowIffTouched(us[..|us| - 1], key);
      if KeyOf(us[|us| - 1]) == Some(key) {
        assert KeyOf(us[|us| - 1]) == Some(key);
      }
    }
  }

  function Extended<T(!new)>(u: Upsert, key: Key, column: Piece -> Option<T>): Option<T> {
    if KeyOf(u) == Some(key) then column(RowOf(u)) else None
  }

  lemma FirstGrows<T(!new)>(us: seq<Upsert>, u: Upsert, key: Key, column: Piece -> Option<T>, v: Option<T>)
    requires IsFirst(us, key, column, v)
    ensures IsFirst(us + [u], key, column, v.OrElse(Extended(u, key, column)))
  {
    hide RowOf, KeyOf;
    var more := us + [u];
    assert forall j :: 0 <= j < |us| ==> more[j] == us[j];
    if v.Some? {
      var k :| 0 <= k < |us| && KeyOf(us[k]) == Some(key) && column(RowOf(us[k])) == v
               && forall j :: 0 <= j < k && KeyOf(us[j]) == Some(key) ==> column(RowOf(us[j])).None?;
      assert KeyOf(more[k]) == Some(key) && column(RowOf(more[k])) == v;
    } else if Extended(u, key, column).Some? {
      assert more[|us|] == u;
      assert KeyOf(more[|us|]) == Some(key) && column(RowOf(more[|us|])) == Extended(u, key, column);
    }
  }

  lemma LastGrows<T(!new)>(us: seq<Upsert>, u: Upsert, key: Key, column: Piece -> Option<T>, v: Option<T>)
    requires IsLast(us, key, column, v)
    ensures IsLast(us + [u], key, column, Extended(u, key, column).OrElse(v))
  {
    hide RowOf, KeyOf;
    var more := us + [u];
    assert forall j :: 0 <= j < |us| ==> more[j] == us[j];
    if Extended(u, key, column).Some? {
      assert more[|us|] == u;
      assert KeyOf(more[|us|]) == Some(key) && column(RowOf(more[|us|])) == Extended(u, key, column);
    } else if v.Some? {
      var k :| 0 <= k < |us| && KeyOf(us[k]) == Some(key) && column(RowOf(us[k])) == v
               && forall j :: k < j < |us| && KeyOf(us[j]) == Some(key) ==> column(RowOf(us[j])).None?;
      assert KeyOf(more[k]) == Some(key) && column(RowOf(more[k])) == v;
    }
  }

  lemma UntouchedHasNone<T(!new)>(us: seq<Upsert>, key: Key, column: Piece -> Option<T>)
    requires key !in ApplyAll(map[], us)
    ensures IsFirst(us, key, column, None) && IsLast(us, key, column, None)
  {
    hide RowOf, KeyOf, ApplyAll;
    RowIffTouched(us, key);
  }

  /** A column that keeps its old value ends with the first value given. */
  lemma {:induction false} KeepsFirst<T(!new)>(us: seq<Upsert>, key: Key, column: Piece -> Option<T>)
    requires Keeps(column) && key in ApplyAll(map[], us)
    ensures IsFirst(us, key, column, column(ApplyAll(map[], us)[key]))
  {
    hide RowOf, KeyOf, Merge, IsFirst, IsLast, Keeps;
    var n := |us| - 1;
    var u, before := us[n], ApplyAll(map[], us[..n]);
    assert us == us[..n] + [u];
    if key in before {
      KeepsFirst(us[..n], key, column);
      FirstGrows(us[..n], u, key, column, column(before[key]));
      MergeKeeps(before[key], RowOf(u), column);
    } else {
      UntouchedHasNone(us[..n], key, column);
      FirstGrows(us[..n], u, key, column, None);
    }
  }

  lemma MergeKeeps<T(!new)>(a: Piece, b: Piece, column: Piece -> Option<T>)
    requires Keeps(column)
    ensures column(Merge(a, b)) == column(a).OrElse(column(b))
  {
  }

  lemma MergeRenews<T(!new)>(a: Piece, b: Piece, column: Piece -> Option<T>)
    requires Renews(column)
    ensures column(Merge(a, b)) == column(b).OrElse(column(a))
  {
  }

  /** A column that takes the new value ends with the last value given. */
  lemma {:induction false} RenewsLast<T(!new)>(us: seq<Upsert>, key: Key, column: Piece -> Option<T>)
    requires Renews(column) && key in ApplyAll(map[], us)
    ensures IsLast(us, key, column, column(ApplyAll(map[], us)[key]))
  {
    hide RowOf, KeyOf, Merge, IsFirst, IsLast, Renews;
    var n := |us| - 1;
    var u, before := us[n], ApplyAll(map[], us[..n]);
    assert us == us[..n] + [u];
    if key in before {
      RenewsLast(us[..n], key, column);
      LastGrows(us[..n], u, key, column, column(before[key]));
      MergeRenews(before[key], RowOf(u), column);
    } else {
      UntouchedHasNone(us[..n], key, column);
      LastGrows(us[..n], u, key, column, None);
    }
  }

  /** After any upserts, a row's four campaign tags are each the first non-null value its key
      was given, column by column. */
  lemma TagsAreFirstGiven(us: seq<Upsert>, key: Key)
    requires key in ApplyAll(map[], us)
    ensures var t := ApplyAll(map[], us)[key].tags;
            && IsFirst(us, key, (p: Piece) => p.tags.step, t.step)
            && IsFirst(us, key, (p: Piece) => p.tags.channelCampaign, t.channelCampaign)
            && IsFirst(us, key, (p: Piece) => p.tags.campaign, t.campaign)
            && IsFirst(us, key, (p: Piece) => p.tags.recipient, t.recipient)
  {
    hide IsFirst, RowOf, KeyOf, ApplyAll;
    KeepsFirst(us, key, (p: Piece) => p.tags.step);
    KeepsFirst(us, key, (p: Piece) => p.tags.channelCampaign);
    KeepsFirst(us, key, (p: Piece) => p.tags.campaign);
    KeepsFirst(us, key, (p: Piece) => p.tags.recipient);
  }

  /** Cost, send date, deliverability and metadata are each the last non-null value given. */
  lemma KnownAreLastGiven(us: seq<Upsert>, key: Key)
    requires key in ApplyAll(map[], us)
    ensures var v := ApplyAll(map[], us)[key].known;
            && IsLast(us, key, (p: Piece) => p.known.sendDate, v.sendDate)
            && IsLast(us, key, (p: Piece) => p.known.costCents, v.costCents)
            && IsLast(us, key, (p: Piece) => p.known.deliverability, v.deliverability)
            && IsLast(us, key, (p: Piece) => p.known.metadata, v.metadata)
  {
    hide IsLast, RowOf, KeyOf, ApplyAll;
    RenewsLast(us, key, (p: Piece) => p.known.sendDate);
    RenewsLast(us, key, (p: Piece) => p.known.costCents);
    RenewsLast(us, key, (p: Piece) => p.known.deliverability);
    RenewsLast(us, key, (p: Piece) => p.known.metadata);
  }

  /** Type, test mode and creator come from the key's first upsert, status and payload from its
      last. */
  lemma {:induction false} FirstAndLastColumns(us: seq<Upsert>, key: Key) returns (first: nat, last: nat)
    requires key in ApplyAll(map[], us)
    ensures first <= last < |us| && KeyOf(us[first]) == Some(key) && KeyOf(us[last]) == Some(key)
    ensures forall j :: 0 <= j < |us| && KeyOf(us[j]) == Some(key) ==> first <= j <= last
    ensures var p, a, z := ApplyAll(map[], us)[key], RowOf(us[first]), RowOf(us[last]);
            && p.pieceType == a.pieceType && p.testMode == a.testMode && p.createdBy == a.createdBy
            && p.status == z.status && p.raw == z.raw
  {
    hide RowOf, KeyOf, Refresh, KeepTags;
    var n := |us| - 1;
    RowIffTouched(us[..n], key);
    if key in ApplyAll(map[], us[..n]) {
      first, last := FirstAndLastColumns(us[..n], key);
      if KeyOf(us[n]) == Some(key) {
        last := n;
      }
    } else {
      first, last := n, n;
    }
  }

  /** Upserts of other keys leave the row alone, so a row depends on its own key's upserts only. */
  lemma RowsAreIndependent(us: seq<Upsert>, vs: seq<Upsert>, key: Key)
    requires OfKey(us, key) == OfKey(vs, key)
    ensures var a, b := ApplyAll(map[], us), ApplyAll(map[], vs);
            (key in a <==> key in b) && (key in a ==> a[key] == b[key])
  {
    OwnUpsertsSuffice(us, key);
    OwnUpsertsSuffice(vs, key);
  }

  function OfKey(us: seq<Upsert>, key: Key): seq<Upsert> {
    if us == [] then []
    else OfKey(us[..|us| - 1], key) + (if KeyOf(us[|us| - 1]) == Some(key) then [us[|us| - 1]] else [])
  }

  lemma {:induction false} OwnUpsertsSuffice(us: seq<Upsert>, key: Key)
    ensures var a, b := ApplyAll(map[], us), ApplyAll(map[], OfKey(us, key));
            (key in a <==> key in b) && (key in a ==> a[key] == b[key])
  {
    hide RowOf, KeyOf, Merge;
    if us != [] {
      var n := |us| - 1;
      OwnUpsertsSuffice(us[..n], key);
      if KeyOf(us[n]) == Some(key) {
        ApplyLast(OfKey(us[..n], key), us[n]);
      } else {
        assert OfKey(us, key) == OfKey(us[..n], key);
      }
    }
  }

  lemma ApplyLast(us: seq<Upsert>, u: Upsert)
    ensures ApplyAll(map[], us + [u]) == Apply(ApplyAll(map[], us), u)
  {
    assert (us + [u])[..|us|] == us;
  }
}
