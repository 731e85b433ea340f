/** Restoring a backup: an additive merge of notes, pending claims and address-book rows. */
module Backup {
  import opened Sequences
  import opened Wrappers

  // ---- Rows ----

  datatype Note = Note(id: string, body: string)

  /** A stored claim. `orderId` is absent on rows written before the two ids were split. */
  datatype Claim = Claim(id: string, secret: string, recipient: string, token: string, amount: string,
                         releaseTime: string, leafIndex: int, allLeaves: seq<string>, txHash: string,
                         orderId: Option<string>)

  /** A claim as found in a backup file: a field of the wrong JSON type makes the row malformed. */
  datatype RawClaim = Malformed | Row(claim: Claim)

  datatype BookEntry = BookEntry(address: string, name: string)

  datatype BookInput = BookInput(name: string, address: string)

  datatype Bundle = Bundle(notes: seq<Note>, pendingClaims: seq<RawClaim>, addressBook: seq<BookInput>)

  datatype Counts = Counts(added: nat, skipped: nat)

  datatype BookCounts = BookCounts(added: nat, skipped: nat, invalid: nat)

  datatype Summary = Summary(notes: Counts, pendingClaims: Counts, addressBook: BookCounts)

  // ---- Keep the first row of each new key ----

  /** The rows whose key is neither in `seen` nor on an earlier row, in order; rows without a key are left out. */
  function FirstNew<R>(rows: seq<R>, keyOf: R -> Option<string>, seen: set<string>): seq<R> {
    if rows == [] then []
    else
      var init, last := rows[..|rows| - 1], rows[|rows| - 1];
      FirstNew(init, keyOf, seen)
      + if keyOf(last).Some? && keyOf(last).value !in Seen(init, keyOf, seen) then [last] else []
  }

  /** All keys met so far. */
  function Seen<R>(rows: seq<R>, keyOf: R -> Option<string>, seen: set<string>): set<string> {
    if rows == [] then seen
    else
      var init, last := rows[..|rows| - 1], rows[|rows| - 1];
      Seen(init, keyOf, seen) + if keyOf(last).Some? then {keyOf(last).value} else {}
  }

  /** Row `i` carries a key that is new and that no earlier row carries. */
  ghost predicate IsFirstNew<R>(rows: seq<R>, keyOf: R -> Option<string>, seen: set<string>, i: nat)
    requires i < |rows|
  {
    && keyOf(rows[i]).Some? && keyOf(rows[i]).value !in seen
    && forall j :: 0 <= j < i ==> keyOf(rows[j]) != keyOf(rows[i])
  }

  lemma {:induction false} SeenIs<R>(rows: seq<R>, keyOf: R -> Option<string>, seen: set<string>, k: string)
    ensures k in Seen(rows, keyOf, seen) <==> k in seen || Carries(rows, keyOf, Some(k))
  {
    if rows != [] {
      var init, last := rows[..|rows| - 1], rows[|rows| - 1];
      SeenIs(init, keyOf, seen, k);
      CarriedOn(init, [last], keyOf, Some(k));
      assert rows == init + [last];
      assert forall i :: 0 <= i < |init| ==> init[i] == rows[i];
      assert keyOf(last) == Some(k) ==> keyOf(rows[|rows| - 1]) == Some(k);
    }
  }

  /** The positions `FirstNew` keeps, in order. */
  ghost function KeptAt<R>(rows: seq<R>, keyOf: R -> Option<string>, seen: set<string>): seq<nat> {
    if rows == [] then []
    else
      var init, last := rows[..|rows| - 1], rows[|rows| - 1];
      KeptAt(init, keyOf, seen)
      + if keyOf(last).Some? && keyOf(last).value !in Seen(init, keyOf, seen) then [|rows| - 1] else []
  }

  /** Exactly the first new occurrences are kept, in bundle order and with nothing else. */
  lemma {:induction false} FirstNewExactly<R>(rows: seq<R>, keyOf: R -> Option<string>, seen: set<string>)
    ensures var kept, out := KeptAt(rows, keyOf, seen), FirstNew(rows, keyOf, seen);
      && |kept| == |out|
      && (forall m :: 0 <= m < |kept| ==> kept[m] < |rows| && out[m] == rows[kept[m]])
      && (forall m, n :: 0 <= m < n < |kept| ==> kept[m] < kept[n])
    ensures forall i :: 0 <= i < |rows| ==> (i in KeptAt(rows, keyOf, seen) <==> IsFirstNew(rows, keyOf, seen, i))
  {
    if rows != [] {
      var n := |rows| - 1;
      var init, last := rows[..n], rows[n];
      FirstNewExactly(init, keyOf, seen);
      if keyOf(last).Some? {
        SeenIs(init, keyOf, seen, keyOf(last).value);
      }
      LastIsFirstNew(rows, keyOf, seen);
      forall i | 0 <= i < n ensures IsFirstNew(rows, keyOf, seen, i) <==> IsFirstNew(init, keyOf, seen, i) {
        assert forall j :: 0 <= j <= i ==> rows[j] == init[j];
      }
    }
  }

  lemma LastIsFirstNew<R>(rows: seq<R>, keyOf: R -> Option<string>, seen: set<string>)
    requires rows != []
    ensures var n := |rows| - 1;
      IsFirstNew(rows, keyOf, seen, n) <==>
      keyOf(rows[n]).Some? && keyOf(rows[n]).value !in Seen(rows[..n], keyOf, seen)
  {
    var n := |rows| - 1;
    if keyOf(rows[n]).Some? {
      var k := keyOf(rows[n]).value;
      SeenIs(rows[..n], keyOf, seen, k);
      assert forall j :: 0 <= j < n ==> rows[..n][j] == rows[j];
    }
  }

  lemma {:induction false} NothingNew<R>(rows: seq<R>, keyOf: R -> Option<string>, seen: set<string>)
    requires forall i :: 0 <= i < |rows| && keyOf(rows[i]).Some? ==> keyOf(rows[i]).value in seen
    ensures FirstNew(rows, keyOf, seen) == []
  {
    if rows != [] {
      var init := rows[..|rows| - 1];
      NothingNew(init, keyOf, seen);
      if keyOf(rows[|rows| - 1]).Some? {
        SeenIs(init, keyOf, seen, keyOf(rows[|rows| - 1]).value);
      }
    }
  }

  ghost predicate Carries<R>(rows: seq<R>, keyOf: R -> Option<string>, key: Option<string>) {
    exists m :: 0 <= m < |rows| && keyOf(rows[m]) == key
  }

  lemma CarriedOn<R>(rows: seq<R>, more: seq<R>, keyOf: R -> Option<string>, key: Option<string>)
    ensures Carries(rows, keyOf, key) ==> Carries(rows + more, keyOf, key)
  {
    if Carries(rows, keyOf, key) {
      var m :| 0 <= m < |rows| && keyOf(rows[m]) == key;
      assert (rows + more)[m] == rows[m];
    }
  }

  /** Every key of the rows is known or carried by a kept row. */
  lemma {:induction false} KeysCovered<R>(rows: seq<R>, keyOf: R -> Option<string>, seen: set<string>, k: string)
    requires Carries(rows, keyOf, Some(k)) && k !in seen
    ensures Carries(FirstNew(rows, keyOf, seen), keyOf, Some(k))
  {
    var n := |rows| - 1;
    var init, last, out := rows[..n], rows[n], FirstNew(rows, keyOf, seen);
    var before := FirstNew(init, keyOf, seen);
    SeenIs(init, keyOf, seen, k);
    if Carries(init, keyOf, Some(k)) {
      KeysCovered(init, keyOf, seen, k);
      CarriedOn(before, out[|before|..], keyOf, Some(k));
      assert out == before + out[|before|..];
    } else {
      assert forall i :: 0 <= i < n ==> init[i] == rows[i];
      assert keyOf(last) == Some(k);
      assert out[|before|] == last;
    }
  }

  // ---- Keys ----

  function NoteKey(n: Note): Option<string> {
    Some(n.id)
  }

  function Digit(d: nat): char
    requires d < 10
  {
    "0123456789"[d]
  }

  function ShowNat(n: nat): string {
    if n < 10 then [Digit(n)] else ShowNat(n / 10) + [Digit(n % 10)]
  }

  function ShowInt(i: int): string {
    if i < 0 then "-" + ShowNat(-i) else ShowNat(i)
  }

  /** Absent and empty order ids both fall back to the transaction hash. */
  function SettlementId(orderId: Option<string>, txHash: string): string {
    if orderId.Some? && orderId.value != "" then orderId.value else txHash
  }

  function ClaimKey(c: Claim): string {
    SettlementId(c.orderId, c.txHash) + "#" + ShowInt(c.leafIndex) + "#" + c.amount
  }

  // ---- What a claim's key tells ----

  ghost predicate Plain(s: string) {
    '#' !in s
  }

  lemma {:induction false} ShowNatPlain(n: nat)
    ensures Plain(ShowNat(n)) && ShowNat(n) != "" && '-' !in ShowNat(n)
  {
    if n >= 10 {
      ShowNatPlain(n / 10);
    }
  }

  lemma ShowNatParts(n: nat)
    ensures var s := ShowNat(n);
      && |s| >= 1 && s[|s| - 1] == Digit(n % 10)
      && s[..|s| - 1] == if n < 10 then "" else ShowNat(n / 10)
  {
  }

  lemma {:induction false} ShowNatInjective(m: nat, n: nat)
    requires ShowNat(m) == ShowNat(n)
    ensures m == n
  {
    ShowNatParts(m);
    ShowNatParts(n);
    ShowNatPlain(m / 10);
    ShowNatPlain(n / 10);
    hide ShowNat, Plain;
    if m >= 10 && n >= 10 {
      ShowNatInjective(m / 10, n / 10);
    }
  }

  lemma ShowIntInjective(i: int, j: int)
    requires ShowInt(i) == ShowInt(j)
    ensures i == j
  {
    ShowIntSign(i);
    ShowIntSign(j);
    hide ShowInt, ShowNat;
    if i < 0 && j < 0 {
      ShowNatInjective(-i, -j);
    } else if i >= 0 && j >= 0 {
      ShowNatInjective(i, j);
    }
  }

  lemma ShowIntSign(i: int)
    ensures ShowInt(i) != "" && (ShowInt(i)[0] == '-' <==> i < 0)
    ensures if i < 0 then ShowInt(i)[1..] == ShowNat(-i) else ShowInt(i) == ShowNat(i)
  {
    ShowNatPlain(if i < 0 then -i else i);
  }

  lemma ShowIntPlain(i: int)
    ensures Plain(ShowInt(i))
  {
    ShowNatPlain(if i < 0 then -i else i);
  }

  /** The last separator splits a text in one way only. */
  lemma LastSplit(a: string, tail: string, a': string, tail': string)
    requires Plain(tail) && Plain(tail') && a + "#" + tail == a' + "#" + tail'
    ensures a == a' && tail == tail'
  {
    var s := a + "#" + tail;
    assert s[|a|] == '#' && s[|a'|] == '#';
    assert forall k :: |a| < k < |s| ==> s[k] == tail[k - |a| - 1] && tail[k - |a| - 1] in tail;
    assert forall k :: |a'| < k < |s| ==> s[k] == tail'[k - |a'| - 1] && tail'[k - |a'| - 1] in tail';
    assert |a| == |a'|;
    assert a == s[..|a|] && a' == s[..|a|];
    assert tail == s[|a| + 1..] && tail' == s[|a| + 1..];
  }

  /** The id a claim settles under: its order id, or its transaction where that is absent or empty. */
  ghost predicate SameSettlement(a: Claim, b: Claim) {
    (if a.orderId.Some? && a.orderId.value != "" then a.orderId.value else a.txHash) ==
    (if b.orderId.Some? && b.orderId.value != "" then b.orderId.value else b.txHash)
  }

  /** Two claims share a key exactly when they are of one settlement, leaf and amount. */
  lemma SameKeyIff(a: Claim, b: Claim)
    requires Plain(a.amount) && Plain(b.amount)
    ensures ClaimKey(a) == ClaimKey(b) <==>
            SameSettlement(a, b) && a.leafIndex == b.leafIndex && a.amount == b.amount
  {
    hide ShowInt, Plain;
    var x, y := SettlementId(a.orderId, a.txHash), SettlementId(b.orderId, b.txHash);
    ShowIntPlain(a.leafIndex);
    ShowIntPlain(b.leafIndex);
    if ClaimKey(a) == ClaimKey(b) {
      LastSplit(x + "#" + ShowInt(a.leafIndex), a.amount, y + "#" + ShowInt(b.leafIndex), b.amount);
      LastSplit(x, ShowInt(a.leafIndex), y, ShowInt(b.leafIndex));
      ShowIntInjective(a.leafIndex, b.leafIndex);
    }
  }

  /** With a separator inside the amounts, two different claims can share a key. */
  lemma SeparatorsCanCollide()
    ensures var a := Claim("", "", "", "", "2#3", "", 1, [], "t", Some("x"));
      var b := a.(orderId := Some("x#1"), leafIndex := 2, amount := "3");
      ClaimKey(a) == ClaimKey(b) && !SameSettlement(a, b)
  {
    assert ShowInt(1) == "1" && ShowInt(2) == "2";
    assert "x" + "#" + "1" + "#" + "2#3" == "x#1#2#3" == "x#1" + "#" + "2" + "#" + "3";
  }

  function RowKey(r: RawClaim): Option<string> {
    if r.Row? then Some(ClaimKey(r.claim)) else None
  }

  /** What is handed to storage: the row without its id, an empty order id dropped. */
  function ToInput(c: Claim): Claim {
    c.(id := "", orderId := if c.orderId.Some? && c.orderId.value != "" then c.orderId else None)
  }

  /** The same claim but for its id; an empty order id counts as none. */
  ghost predicate SameClaim(a: Claim, b: Claim) {
    && a.secret == b.secret && a.recipient == b.recipient && a.token == b.token && a.amount == b.amount
    && a.releaseTime == b.releaseTime && a.leafIndex == b.leafIndex && a.allLeaves == b.allLeaves
    && a.txHash == b.txHash
    && (a.orderId == b.orderId || (a.orderId in {None, Some("")} && b.orderId in {None, Some("")}))
  }

  lemma InputKeepsKey(c: Claim)
    ensures ClaimKey(ToInput(c)) == ClaimKey(c)
  {
  }

  // ---- One wallet's stores ----

  /** Bodies by id, and the index that makes an id exist for the app. */
  datatype NoteStore = NoteStore(index: seq<string>, bodies: map<string, Note>)

  /**
   What the device decides: which note writes land, the ids of new claims, whether claims and the
   address book can be written, and how a book row is normalised, if it is valid at all.
   */
  datatype Device = Device(noteLands: string -> bool, newClaimId: nat -> string, claimsLand: bool, bookLands: bool,
                           prepare: BookInput -> Option<BookEntry>)

  function Ids(s: seq<string>): set<string> {
    set x | x in s
  }

  function ClaimKeys(claims: seq<Claim>): set<string> {
    set c | c in claims :: ClaimKey(c)
  }

  function Addresses(book: seq<BookEntry>): set<string> {
    set e | e in book :: e.address
  }

  /** The notes whose write lands, in order. */
  function Landed(notes: seq<Note>, lands: string -> bool): seq<Note> {
    if notes == [] then []
    else
      var last := notes[|notes| - 1];
      Landed(notes[..|notes| - 1], lands) + if lands(last.id) then [last] else []
  }

  /** An index with each id appended that it does not hold yet. */
  function Merged(index: seq<string>, ids: seq<string>): seq<string> {
    if ids == [] then index
    else
      var before, last := Merged(index, ids[..|ids| - 1]), ids[|ids| - 1];
      if last in before then before else before + [last]
  }

  function NoteIds(notes: seq<Note>): seq<string> {
    seq(|notes|, i requires 0 <= i < |notes| => notes[i].id)
  }

  function Written(bodies: map<string, Note>, notes: seq<Note>): map<string, Note> {
    if notes == [] then bodies
    else
      var last := notes[|notes| - 1];
      Written(bodies, notes[..|notes| - 1])[last.id := last]
  }

  /** A note store after writing `notes` and indexing them. */
  function Saved(store: NoteStore, notes: seq<Note>): NoteStore {
    NoteStore(Merged(store.index, NoteIds(notes)), Written(store.bodies, notes))
  }

  function NotesAfter(store: NoteStore, notes: seq<Note>, device: Device): NoteStore {
    Saved(store, Landed(FirstNew(notes, NoteKey, Ids(store.index)), device.noteLands))
  }

  ghost predicate HasNote(rows: seq<Note>, id: string) {
    exists i :: 0 <= i < |rows| && rows[i].id == id
  }

  /**
   A restore of notes: an id is in the index if it was or if a row carries it and its write landed;
   then the first such row is its body. Every other body is as before.
   */
  ghost predicate MergesNotes(before: NoteStore, after: NoteStore, rows: seq<Note>, lands: string -> bool) {
    && before.index <= after.index
    && (forall id :: id in after.index <==> id in before.index || (lands(id) && HasNote(rows, id)))
    && (forall i :: 0 <= i < |rows| && rows[i].id !in before.index && lands(rows[i].id)
                    && (forall j :: 0 <= j < i ==> rows[j].id != rows[i].id) ==>
          rows[i].id in after.bodies && after.bodies[rows[i].id] == rows[i])
    && (forall id :: id in before.index || !lands(id) || !HasNote(rows, id) ==>
          && (id in after.bodies <==> id in before.bodies)
          && (id in before.bodies ==> after.bodies[id] == before.bodies[id]))
  }

  function NewClaims(claims: seq<Claim>, rows: seq<RawClaim>): seq<RawClaim> {
    FirstNew(rows, RowKey, ClaimKeys(claims))
  }

  /** New claims as stored: the fields of the row under a new id. */
  function Stored(rows: seq<RawClaim>, newClaimId: nat -> string): seq<Claim> {
    if rows == [] then []
    else
      var last := rows[|rows| - 1];
      Stored(rows[..|rows| - 1], newClaimId)
      + if last.Row? then [ToInput(last.claim).(id := newClaimId(|rows| - 1))] else []
  }

  function ClaimsAfter(claims: seq<Claim>, rows: seq<RawClaim>, device: Device): seq<Claim> {
    claims + Stored(NewClaims(claims, rows), device.newClaimId)
  }

  /** `after` is `before` and then a claim for each row, under a new id. */
  ghost predicate Appends(before: seq<Claim>, after: seq<Claim>, rows: seq<RawClaim>, newClaimId: nat -> string) {
    && |after| == |before| + |rows| && before <= after
    && forall m :: 0 <= m < |rows| ==>
         && rows[m].Row? && SameClaim(after[|before| + m], rows[m].claim)
         && after[|before| + m].id == newClaimId(m)
  }

  function InputKey(device: Device): BookInput -> Option<string> {
    (input: BookInput) => if device.prepare(input).Some? then Some(device.prepare(input).value.address) else None
  }

  function Prepared(inputs: seq<BookInput>, device: Device): seq<BookEntry> {
    if inputs == [] then []
    else
      var last := device.prepare(inputs[|inputs| - 1]);
      Prepared(inputs[..|inputs| - 1], device) + if last.Some? then [last.value] else []
  }

  function NewEntries(book: seq<BookEntry>, inputs: seq<BookInput>, device: Device): seq<BookInput> {
    FirstNew(inputs, InputKey(device), Addresses(book))
  }

  function BookAfter(book: seq<BookEntry>, inputs: seq<BookInput>, device: Device): seq<BookEntry> {
    book + Prepared(NewEntries(book, inputs, device), device)
  }

  /** The rows the storage services would reject outright. */
  function InvalidCount<R>(rows: seq<R>, keyOf: R -> Option<string>): nat {
    if rows == [] then 0
    else InvalidCount(rows[..|rows| - 1], keyOf) + if keyOf(rows[|rows| - 1]).None? then 1 else 0
  }

  datatype AddResult = Added | Duplicate | Invalid

  function CountOf(results: seq<AddResult>, which: AddResult): nat {
    if results == [] then 0
    else CountOf(results[..|results| - 1], which) + if results[|results| - 1] == which then 1 else 0
  }

  method Tally(results: seq<AddResult>) returns (counts: BookCounts)
    ensures counts.added == CountOf(results, Added) && counts.invalid == CountOf(results, Invalid)
    ensures counts.added + counts.skipped + counts.invalid == |results|
  {
    var added, skipped, invalid := 0, 0, 0;
    for i := 0 to |results|
      invariant added == CountOf(results[..i], Added) && invalid == CountOf(results[..i], Invalid)
      invariant added + skipped + invalid == i
    {
      assert results[..i + 1][..i] == results[..i];
      match results[i]
      case Added => added := added + 1;
      case Duplicate => skipped := skipped + 1;
      case Invalid => invalid := invalid + 1;
    }
    assert results[..|results|] == results;
    counts := BookCounts(added, skipped, invalid);
  }

  // ---- The wallet's storage and the restore ----

  class WalletStorage {
    var notes: NoteStore
    var claims: seq<Claim>
    var book: seq<BookEntry>

    constructor ()
      ensures notes == NoteStore([], map[]) && claims == [] && book == []
    {
      notes, claims, book := NoteStore([], map[]), [], [];
    }

    /** Write the bodies that land, then merge their ids into the index in one update. */
    method SaveNotesBulk(batch: seq<Note>, device: Device) returns (landed: nat)
      modifies this`notes
      ensures notes == Saved(old(notes), Landed(batch, device.noteLands))
      ensures landed == |Landed(batch, device.noteLands)|
      ensures Distinct(old(notes.index)) ==> Distinct(notes.index)
    {
      var successIds: seq<string> := [];
      var bodies := notes.bodies;
      for i := 0 to |batch|
        invariant notes == old(notes)
        invariant successIds == NoteIds(Landed(batch[..i], device.noteLands))
        invariant bodies == Written(notes.bodies, Landed(batch[..i], device.noteLands))
      {
        assert batch[..i + 1][..i] == batch[..i];
        WrittenMore(notes.bodies, Landed(batch[..i], device.noteLands), batch[i]);
        if device.noteLands(batch[i].id) {
          bodies := bodies[batch[i].id := batch[i]];
          successIds := successIds + [batch[i].id];
        }
      }
      assert batch[..|batch|] == batch;
      var existing, merged := Ids(notes.index), notes.index;
      for i := 0 to |successIds|
        invariant notes == old(notes)
        invariant merged == Merged(notes.index, successIds[..i]) && existing == Ids(merged)
      {
        assert successIds[..i + 1][..i] == successIds[..i];
        if successIds[i] !in existing {
          merged := merged + [successIds[i]];
          existing := existing + {successIds[i]};
        }
      }
      assert successIds[..|successIds|] == successIds;
      MergedStaysDistinct(notes.index, successIds);
      notes := NoteStore(merged, bodies);
      landed := |successIds|;
    }

    method RestoreNotes(rows: seq<Note>, device: Device) returns (counts: Counts)
      modifies this`notes
      ensures notes == NotesAfter(old(notes), rows, device)
      ensures MergesNotes(old(notes), notes, rows, device.noteLands)
      ensures Distinct(old(notes.index)) ==> Distinct(notes.index)
      ensures counts.added == |Landed(FirstNew(rows, NoteKey, Ids(old(notes.index))), device.noteLands)|
      ensures counts.added + counts.skipped == |rows|
    {
      var seen := Ids(notes.index);
      var toSave, skipped := [], 0;
      ghost var known := seen;
      for i := 0 to |rows|
        invariant notes == old(notes)
        invariant seen == Seen(rows[..i], NoteKey, known)
        invariant toSave == FirstNew(rows[..i], NoteKey, known)
        invariant |toSave| + skipped == i
      {
        assert rows[..i + 1][..i] == rows[..i];
        if rows[i].id in seen {
          skipped := skipped + 1;
        } else {
          seen := seen + {rows[i].id};
          toSave := toSave + [rows[i]];
        }
      }
      assert rows[..|rows|] == rows;
      LandedLength(toSave, device.noteLands);
      var added := SaveNotesBulk(toSave, device);
      NotesMerged(old(notes), rows, device);
      counts := Counts(added, skipped + (|toSave| - added));
    }

    /** Validate and deduplicate before any write, then append all or fail. */
    method RestoreClaims(rows: seq<RawClaim>, device: Device) returns (counts: Result<Counts, string>)
      modifies this`claims
      ensures counts.Ok? <==> NewClaims(old(claims), rows) == [] || device.claimsLand
      ensures counts.Ok? ==> claims == ClaimsAfter(old(claims), rows, device)
      ensures counts.Ok? ==> Appends(old(claims), claims, NewClaims(old(claims), rows), device.newClaimId)
      ensures counts.Ok? ==> counts.value.added == |NewClaims(old(claims), rows)|
      ensures counts.Ok? ==> counts.value.added + counts.value.skipped == |rows|
      ensures counts.Err? ==> claims == old(claims)
    {
      hide Stored, ClaimKey, ToInput, Appends;
      var existing := ClaimKeys(claims);
      var toAdd: seq<Claim>, skipped := [], 0;
      ghost var known, newRows := existing, [];
      StoredNone(device.newClaimId);
      for i := 0 to |rows|
        invariant claims == old(claims)
        invariant existing == Seen(rows[..i], RowKey, known)
        invariant newRows == FirstNew(rows[..i], RowKey, known)
        invariant toAdd == Stored(newRows, device.newClaimId) && |toAdd| == |newRows|
        invariant |newRows| + skipped == i
      {
        assert rows[..i + 1][..i] == rows[..i];
        if rows[i].Malformed? {
          skipped := skipped + 1;
        } else if ClaimKey(rows[i].claim) in existing {
          skipped := skipped + 1;
        } else {
          existing := existing + {ClaimKey(rows[i].claim)};
          ghost var before := newRows;
          newRows := newRows + [rows[i]];
          StoredMore(before, rows[i], device.newClaimId);
          toAdd := toAdd + [ToInput(rows[i].claim).(id := device.newClaimId(|toAdd|))];
        }
      }
      assert rows[..|rows|] == rows;
      if |toAdd| > 0 && !device.claimsLand {
        return Err("write failed");
      }
      claims := claims + toAdd;
      ClaimsAppended(old(claims), rows, device);
      counts := Ok(Counts(|toAdd|, skipped));
    }

    /** Bulk add to the address book: one result per row, one write. */
    method AddMany(inputs: seq<BookInput>, device: Device) returns (r: Result<seq<AddResult>, string>)
      modifies this`book
      ensures r.Ok? <==> NewEntries(old(book), inputs, device) == [] || device.bookLands
      ensures r.Ok? ==> |r.value| == |inputs| && book == BookAfter(old(book), inputs, device)
      ensures r.Ok? ==> Judged(inputs, r.value, device, Addresses(old(book)))
      ensures r.Ok? ==> CountOf(r.value, Added) == |NewEntries(old(book), inputs, device)|
      ensures r.Ok? ==> CountOf(r.value, Invalid) == InvalidCount(inputs, InputKey(device))
      ensures r.Err? ==> book == old(book)
    {
      hide FirstNew, Seen, Prepared, InvalidCount, CountOf, InputKey, AddProgress;
      var taken := Addresses(book);
      var toAppend: seq<BookEntry> := [];
      var results: seq<AddResult> := [];
      ghost var known, newRows := taken, [];
      AddStart(inputs, device, known);
      for i := 0 to |inputs|
        invariant book == old(book)
        invariant AddProgress(inputs, i, device, known, taken, newRows, toAppend, results)
      {
        AddStep(inputs, i, device, known, taken, newRows, toAppend, results);
        var prepared := device.prepare(inputs[i]);
        if prepared.None? {
          results := results + [Invalid];
        } else if prepared.value.address in taken {
          results := results + [Duplicate];
        } else {
          taken := taken + {prepared.value.address};
          newRows := newRows + [inputs[i]];
          toAppend := toAppend + [prepared.value];
          results := results + [Added];
        }
      }
      AddDone(inputs, device, known, taken, newRows, toAppend, results);
      if |toAppend| > 0 {
        if !device.bookLands {
          return Err("write failed");
        }
        book := book + toAppend;
      }
      r := Ok(results);
    }

    method RestoreBook(inputs: seq<BookInput>, device: Device) returns (counts: Result<BookCounts, string>)
      modifies this`book
      ensures counts.Ok? <==> NewEntries(old(book), inputs, device) == [] || device.bookLands
      ensures counts.Ok? ==> book == BookAfter(old(book), inputs, device)
      ensures counts.Ok? ==> counts.value.added == |NewEntries(old(book), inputs, device)|
      ensures counts.Ok? ==> counts.value.invalid == InvalidCount(inputs, InputKey(device))
      ensures counts.Ok? ==> counts.value.added + counts.value.skipped + counts.value.invalid == |inputs|
      ensures counts.Err? ==> book == old(book)
    {
      if inputs == [] {
        return Ok(BookCounts(0, 0, 0));
      }
      var results := AddMany(inputs, device);
      if results.Err? {
        return Err(results.error);
      }
      var tally := Tally(results.value);
      counts := Ok(tally);
    }

    /** Section by section; a failed section leaves the later ones untouched. */
    method Restore(bundle: Bundle, device: Device) returns (r: Result<Summary, string>)
      modifies this
      ensures notes == NotesAfter(old(notes), bundle.notes, device)
      ensures claims ==
        if NewClaims(old(claims), bundle.pendingClaims) == [] || device.claimsLand
        then ClaimsAfter(old(claims), bundle.pendingClaims, device) else old(claims)
      ensures book == if r.Ok? then BookAfter(old(book), bundle.addressBook, device) else old(book)
      ensures r.Ok? ==> Accounts(r.value, bundle)
      ensures r.Ok? ==> r.value.pendingClaims.added == |claims| - |old(claims)|
      ensures r.Ok? <==>
        && (NewClaims(old(claims), bundle.pendingClaims) == [] || device.claimsLand)
        && (NewEntries(old(book), bundle.addressBook, device) == [] || device.bookLands)
    {
      var noteCounts := RestoreNotes(bundle.notes, device);
      var claimCounts := RestoreClaims(bundle.pendingClaims, device);
      if claimCounts.Err? {
        return Err(claimCounts.error);
      }
      StoredLength(bundle.pendingClaims, ClaimKeys(old(claims)), device.newClaimId);
      var bookCounts := RestoreBook(bundle.addressBook, device);
      if bookCounts.Err? {
        return Err(bookCounts.error);
      }
      r := Ok(Summary(noteCounts, claimCounts.value, bookCounts.value));
    }
  }

  /** Every row of the file is accounted for. */
  ghost predicate Accounts(s: Summary, bundle: Bundle) {
    && s.notes.added + s.notes.skipped == |bundle.notes|
    && s.pendingClaims.added + s.pendingClaims.skipped == |bundle.pendingClaims|
    && s.addressBook.added + s.addressBook.skipped + s.addressBook.invalid == |bundle.addressBook|
  }

  // ---- Proofs about the steps ----

  lemma MergeStep<R>(rows: seq<R>, i: nat, keyOf: R -> Option<string>, seen: set<string>)
    requires i < |rows|
    ensures Seen(rows[..i + 1], keyOf, seen) ==
            Seen(rows[..i], keyOf, seen) + if keyOf(rows[i]).Some? then {keyOf(rows[i]).value} else {}
    ensures FirstNew(rows[..i + 1], keyOf, seen) == FirstNew(rows[..i], keyOf, seen)
      + if keyOf(rows[i]).Some? && keyOf(rows[i]).value !in Seen(rows[..i], keyOf, seen) then [rows[i]] else []
    ensures InvalidCount(rows[..i + 1], keyOf) ==
            InvalidCount(rows[..i], keyOf) + if keyOf(rows[i]).None? then 1 else 0
  {
    assert rows[..i + 1][..i] == rows[..i];
  }

  /** Each row's own result: invalid if it cannot be prepared, added if its address is new, else a duplicate. */
  ghost predicate Judged(inputs: seq<BookInput>, results: seq<AddResult>, device: Device, known: set<string>) {
    |results| <= |inputs| &&
    forall j :: 0 <= j < |results| ==>
      results[j] ==
      if device.prepare(inputs[j]).None? then Invalid
      else if IsFirstNew(inputs, InputKey(device), known, j) then Added
      else Duplicate
  }

  lemma FirstNewAt<R>(rows: seq<R>, keyOf: R -> Option<string>, seen: set<string>, i: nat)
    requires i < |rows|
    ensures IsFirstNew(rows, keyOf, seen, i) <==>
            keyOf(rows[i]).Some? && keyOf(rows[i]).value !in Seen(rows[..i], keyOf, seen)
  {
    var prefix := rows[..i + 1];
    assert prefix[..i] == rows[..i];
    LastIsFirstNew(prefix, keyOf, seen);
    assert forall j :: 0 <= j <= i ==> prefix[j] == rows[j];
  }

  /** How far a bulk add has come after `i` rows. */
  ghost predicate AddProgress(inputs: seq<BookInput>, i: nat, device: Device, known: set<string>, taken: set<string>,
                              newRows: seq<BookInput>, toAppend: seq<BookEntry>, results: seq<AddResult>) {
    && i <= |inputs| && |results| == i
    && taken == Seen(inputs[..i], InputKey(device), known)
    && newRows == FirstNew(inputs[..i], InputKey(device), known)
    && toAppend == Prepared(newRows, device) && |toAppend| == |newRows|
    && Judged(inputs, results, device, known)
    && CountOf(results, Added) == |newRows|
    && CountOf(results, Invalid) == InvalidCount(inputs[..i], InputKey(device))
  }

  lemma PreparedMore(inputs: seq<BookInput>, input: BookInput, device: Device)
    requires device.prepare(input).Some?
    ensures Prepared(inputs + [input], device) == Prepared(inputs, device) + [device.prepare(input).value]
  {
    assert (inputs + [input])[..|inputs|] == inputs;
  }

  lemma AddStart(inputs: seq<BookInput>, device: Device, known: set<string>)
    ensures AddProgress(inputs, 0, device, known, known, [], [], [])
  {
  }

  lemma AddStep(inputs: seq<BookInput>, i: nat, device: Device, known: set<string>, taken: set<string>,
                newRows: seq<BookInput>, toAppend: seq<BookEntry>, results: seq<AddResult>)
    requires i < |inputs| && AddProgress(inputs, i, device, known, taken, newRows, toAppend, results)
    ensures var prepared := device.prepare(inputs[i]);
      && (prepared.None? ==> AddProgress(inputs, i + 1, device, known, taken, newRows, toAppend, results + [Invalid]))
      && (prepared.Some? && prepared.value.address in taken ==>
          AddProgress(inputs, i + 1, device, known, taken, newRows, toAppend, results + [Duplicate]))
      && (prepared.Some? && prepared.value.address !in taken ==>
          AddProgress(inputs, i + 1, device, known, taken + {prepared.value.address}, newRows + [inputs[i]],
                      toAppend + [prepared.value], results + [Added]))
  {
    hide FirstNew, Seen, InvalidCount, CountOf, Prepared, IsFirstNew;
    var prepared := device.prepare(inputs[i]);
    FirstNewAt(inputs, InputKey(device), known, i);
    MergeStep(inputs, i, InputKey(device), known);
    if prepared.None? {
      CountMore(results, Invalid);
      assert taken + {} == taken && newRows + [] == newRows;
    } else if prepared.value.address in taken {
      CountMore(results, Duplicate);
      assert taken + {prepared.value.address} == taken && newRows + [] == newRows;
    } else {
      CountMore(results, Added);
      PreparedMore(newRows, inputs[i], device);
    }
  }

  lemma AddDone(inputs: seq<BookInput>, device: Device, known: set<string>, taken: set<string>,
                newRows: seq<BookInput>, toAppend: seq<BookEntry>, results: seq<AddResult>)
    requires AddProgress(inputs, |inputs|, device, known, taken, newRows, toAppend, results)
    ensures |results| == |inputs| && toAppend == Prepared(FirstNew(inputs, InputKey(device), known), device)
    ensures |toAppend| == |FirstNew(inputs, InputKey(device), known)|
    ensures Judged(inputs, results, device, known)
    ensures CountOf(results, Added) == |FirstNew(inputs, InputKey(device), known)|
    ensures CountOf(results, Invalid) == InvalidCount(inputs, InputKey(device))
  {
    assert inputs[..|inputs|] == inputs;
  }

  lemma CountMore(results: seq<AddResult>, result: AddResult)
    ensures CountOf(results + [result], Added) == CountOf(results, Added) + if result == Added then 1 else 0
    ensures CountOf(results + [result], Invalid) == CountOf(results, Invalid) + if result == Invalid then 1 else 0
  {
    assert (results + [result])[..|results|] == results;
  }

  lemma WrittenMore(bodies: map<string, Note>, landed: seq<Note>, note: Note)
    ensures NoteIds(landed + [note]) == NoteIds(landed) + [note.id]
    ensures Written(bodies, landed + [note]) == Written(bodies, landed)[note.id := note]
    ensures landed + [] == landed
  {
    assert (landed + [note])[..|landed|] == landed;
  }

  lemma {:induction false} LandedLength(notes: seq<Note>, lands: string -> bool)
    ensures |Landed(notes, lands)| <= |notes|
  {
    if notes != [] {
      LandedLength(notes[..|notes| - 1], lands);
    }
  }

  lemma FirstNewNotes(rows: seq<Note>, seen: set<string>)
    ensures var out := FirstNew(rows, NoteKey, seen);
      && (forall m :: 0 <= m < |out| ==> out[m].id !in seen)
      && (forall m, n :: 0 <= m < n < |out| ==> out[m].id != out[n].id)
  {
    FirstNewExactly(rows, NoteKey, seen);
    var kept, out := KeptAt(rows, NoteKey, seen), FirstNew(rows, NoteKey, seen);
    forall m | 0 <= m < |out| ensures out[m].id !in seen {
      assert kept[m] in kept && IsFirstNew(rows, NoteKey, seen, kept[m]);
    }
    forall m, n | 0 <= m < n < |out| ensures out[m].id != out[n].id {
      assert kept[n] in kept && IsFirstNew(rows, NoteKey, seen, kept[n]);
    }
  }

  lemma StoredNone(newClaimId: nat -> string)
    ensures Stored([], newClaimId) == []
  {
  }

  lemma StoredMore(rows: seq<RawClaim>, row: RawClaim, newClaimId: nat -> string)
    requires row.Row?
    ensures Stored(rows + [row], newClaimId) == Stored(rows, newClaimId) + [ToInput(row.claim).(id := newClaimId(|rows|))]
  {
    assert (rows + [row])[..|rows|] == rows;
  }

  lemma {:induction false} StoredLength(rows: seq<RawClaim>, seen: set<string>, newClaimId: nat -> string)
    ensures |Stored(FirstNew(rows, RowKey, seen), newClaimId)| == |FirstNew(rows, RowKey, seen)|
  {
    if rows != [] {
      var init := rows[..|rows| - 1];
      StoredLength(init, seen, newClaimId);
      var out, before := FirstNew(rows, RowKey, seen), FirstNew(init, RowKey, seen);
      if |out| > |before| {
        assert out == before + [rows[|rows| - 1]] && rows[|rows| - 1].Row?;
        StoredMore(before, rows[|rows| - 1], newClaimId);
      } else {
        assert out == before;
      }
    }
  }

  // ---- What a restore means ----

  ghost predicate AllLands(device: Device) {
    device.claimsLand && device.bookLands && forall id :: device.noteLands(id)
  }

  lemma {:induction false} WrittenKeeps(bodies: map<string, Note>, notes: seq<Note>, id: string)
    requires forall i :: 0 <= i < |notes| ==> notes[i].id != id
    ensures id in Written(bodies, notes) <==> id in bodies
    ensures id in bodies ==> Written(bodies, notes)[id] == bodies[id]
  {
    if notes != [] {
      WrittenKeeps(bodies, notes[..|notes| - 1], id);
    }
  }

  lemma {:induction false} LandedFrom(notes: seq<Note>, lands: string -> bool, i: nat)
    requires i < |Landed(notes, lands)|
    ensures Landed(notes, lands)[i] in notes
  {
    var init := notes[..|notes| - 1];
    if i < |Landed(init, lands)| {
      LandedFrom(init, lands, i);
      assert notes == init + [notes[|notes| - 1]];
    }
  }

  lemma LandedIsNew(rows: seq<Note>, known: set<string>, lands: string -> bool, i: nat)
    requires i < |Landed(FirstNew(rows, NoteKey, known), lands)|
    ensures Landed(FirstNew(rows, NoteKey, known), lands)[i].id !in known
  {
    var kept := FirstNew(rows, NoteKey, known);
    FirstNewNotes(rows, known);
    LandedFrom(kept, lands, i);
    hide Landed, FirstNew;
    var m :| 0 <= m < |kept| && kept[m] == Landed(kept, lands)[i];
    assert kept[m].id !in known;
  }

  /** Nothing that was there changes: indexed notes keep their bodies, claims and book rows stay in front. */
  lemma RestoreIsAdditive(store: NoteStore, claims: seq<Claim>, book: seq<BookEntry>, bundle: Bundle, device: Device)
    ensures store.index <= NotesAfter(store, bundle.notes, device).index
    ensures forall id :: id in store.index && id in store.bodies ==>
      id in NotesAfter(store, bundle.notes, device).bodies
      && NotesAfter(store, bundle.notes, device).bodies[id] == store.bodies[id]
    ensures claims <= ClaimsAfter(claims, bundle.pendingClaims, device)
    ensures book <= BookAfter(book, bundle.addressBook, device)
  {
    var known := Ids(store.index);
    var kept := FirstNew(bundle.notes, NoteKey, known);
    var landed := Landed(kept, device.noteLands);
    forall i | 0 <= i < |landed| ensures landed[i].id !in known {
      LandedIsNew(bundle.notes, known, device.noteLands, i);
    }
    hide Landed, FirstNew, Written, Merged;
    forall id | id in store.index && id in store.bodies
      ensures id in Saved(store, landed).bodies && Saved(store, landed).bodies[id] == store.bodies[id]
    {
      assert id in known;
      WrittenKeeps(store.bodies, landed, id);
    }
    MergedGrows(store.index, NoteIds(landed));
  }

  /** An index lists no id twice. */
  lemma {:induction false} MergedStaysDistinct(index: seq<string>, ids: seq<string>)
    ensures Distinct(index) ==> Distinct(Merged(index, ids))
  {
    if ids != [] {
      MergedStaysDistinct(index, ids[..|ids| - 1]);
    }
  }

  lemma {:induction false} MergedGrows(index: seq<string>, ids: seq<string>)
    ensures index <= Merged(index, ids)
    ensures forall id :: id in Merged(index, ids) <==> id in index || id in ids
  {
    if ids != [] {
      var init, last := ids[..|ids| - 1], ids[|ids| - 1];
      MergedGrows(index, init);
      assert ids == init + [last];
    }
  }

  lemma {:induction false} AllLand(notes: seq<Note>, lands: string -> bool)
    requires forall id :: lands(id)
    ensures Landed(notes, lands) == notes
  {
    if notes != [] {
      AllLand(notes[..|notes| - 1], lands);
    }
  }

  lemma {:induction false} StoredKeys(rows: seq<RawClaim>, newClaimId: nat -> string, m: nat)
    requires m < |rows| && AllRows(rows)
    ensures |Stored(rows, newClaimId)| == |rows| && Some(ClaimKey(Stored(rows, newClaimId)[m])) == RowKey(rows[m])
  {
    var init, last := rows[..|rows| - 1], rows[|rows| - 1];
    InputKeepsKey(last.claim);
    StoredAllLength(init, newClaimId);
    if m < |init| {
      StoredKeys(init, newClaimId, m);
    }
  }

  lemma {:induction false} StoredAllLength(rows: seq<RawClaim>, newClaimId: nat -> string)
    requires AllRows(rows)
    ensures |Stored(rows, newClaimId)| == |rows|
  {
    if rows != [] {
      StoredAllLength(rows[..|rows| - 1], newClaimId);
    }
  }

  ghost predicate AllRows(rows: seq<RawClaim>) {
    forall i :: 0 <= i < |rows| ==> rows[i].Row?
  }

  lemma {:induction false} FirstNewAreRows(rows: seq<RawClaim>, seen: set<string>)
    ensures AllRows(FirstNew(rows, RowKey, seen))
  {
    if rows != [] {
      FirstNewAreRows(rows[..|rows| - 1], seen);
    }
  }

  lemma ClaimsCovered(claims: seq<Claim>, rows: seq<RawClaim>, device: Device, i: nat)
    requires i < |rows| && rows[i].Row?
    ensures ClaimKey(rows[i].claim) in ClaimKeys(ClaimsAfter(claims, rows, device))
  {
    hide ClaimKey, FirstNew, Stored;
    var k, known := ClaimKey(rows[i].claim), ClaimKeys(claims);
    var after := ClaimsAfter(claims, rows, device);
    if k in known {
      var c :| c in claims && ClaimKey(c) == k;
      assert c in after;
    } else {
      assert RowKey(rows[i]) == Some(k);
      KeysCovered(rows, RowKey, known, k);
      var added := FirstNew(rows, RowKey, known);
      var m :| 0 <= m < |added| && RowKey(added[m]) == Some(k);
      FirstNewAreRows(rows, known);
      StoredKeys(added, device.newClaimId, m);
      assert Stored(added, device.newClaimId)[m] in after;
    }
  }

  lemma {:induction false} PreparedHas(rows: seq<BookInput>, device: Device, m: nat)
    requires m < |rows| && device.prepare(rows[m]).Some?
    ensures device.prepare(rows[m]).value in Prepared(rows, device)
  {
    if m < |rows| - 1 {
      PreparedHas(rows[..|rows| - 1], device, m);
    }
  }

  /** Two restores that normalise addresses alike; what else an entry records, such as its time, may differ. */
  ghost predicate SameKeys(a: Device, b: Device) {
    forall input: BookInput :: InputKey(a)(input) == InputKey(b)(input)
  }

  lemma BookCovered(book: seq<BookEntry>, inputs: seq<BookInput>, device: Device, k: string)
    requires Carries(inputs, InputKey(device), Some(k))
    ensures k in Addresses(BookAfter(book, inputs, device))
  {
    var known, after := Addresses(book), BookAfter(book, inputs, device);
    if k in known {
      var e :| e in book && e.address == k;
      assert e in after;
    } else {
      KeysCovered(inputs, InputKey(device), known, k);
      var added := NewEntries(book, inputs, device);
      hide FirstNew, Prepared, Addresses;
      var m :| 0 <= m < |added| && InputKey(device)(added[m]) == Some(k);
      PreparedHas(added, device, m);
      assert device.prepare(added[m]).value in after;
      AddressOf(after, device.prepare(added[m]).value);
    }
  }

  lemma AddressOf(book: seq<BookEntry>, e: BookEntry)
    requires e in book
    ensures e.address in Addresses(book)
  {
  }

  /** A second restore of the same file adds nothing to any section, once every write has landed. */
  lemma SecondRestoreAddsNothing(store: NoteStore, claims: seq<Claim>, book: seq<BookEntry>, bundle: Bundle,
                                 device: Device, device2: Device)
    requires AllLands(device)
    ensures NotesAfter(NotesAfter(store, bundle.notes, device), bundle.notes, device2) ==
            NotesAfter(store, bundle.notes, device)
    ensures ClaimsAfter(ClaimsAfter(claims, bundle.pendingClaims, device), bundle.pendingClaims, device2) ==
            ClaimsAfter(claims, bundle.pendingClaims, device)
    ensures SameKeys(device, device2) ==>
      BookAfter(BookAfter(book, bundle.addressBook, device), bundle.addressBook, device2) ==
      BookAfter(book, bundle.addressBook, device)
  {
    var rows := bundle.pendingClaims;
    var after := ClaimsAfter(claims, rows, device);
    forall i | 0 <= i < |rows| && RowKey(rows[i]).Some? ensures RowKey(rows[i]).value in ClaimKeys(after) {
      ClaimsCovered(claims, rows, device, i);
    }
    NothingNew(rows, RowKey, ClaimKeys(after));
    NotesCovered(store, bundle.notes, device);
    NothingNew(bundle.notes, NoteKey, Ids(NotesAfter(store, bundle.notes, device).index));
    if SameKeys(device, device2) {
      SecondBookAddsNothing(book, bundle.addressBook, device, device2);
    }
  }

  lemma SecondBookAddsNothing(book: seq<BookEntry>, inputs: seq<BookInput>, device: Device, device2: Device)
    requires SameKeys(device, device2)
    ensures BookAfter(BookAfter(book, inputs, device), inputs, device2) == BookAfter(book, inputs, device)
  {
    hide FirstNew, Addresses;
    var after := BookAfter(book, inputs, device);
    forall i | 0 <= i < |inputs| && InputKey(device2)(inputs[i]).Some?
      ensures InputKey(device2)(inputs[i]).value in Addresses(after)
    {
      assert InputKey(device)(inputs[i]) == InputKey(device2)(inputs[i]);
      BookCovered(book, inputs, device, InputKey(device)(inputs[i]).value);
    }
    NothingNew(inputs, InputKey(device2), Addresses(after));
  }

  lemma NotesCovered(store: NoteStore, rows: seq<Note>, device: Device)
    requires AllLands(device)
    ensures forall i :: 0 <= i < |rows| ==> rows[i].id in Ids(NotesAfter(store, rows, device).index)
  {
    var known := Ids(store.index);
    var added := FirstNew(rows, NoteKey, known);
    AllLand(added, device.noteLands);
    MergedGrows(store.index, NoteIds(added));
    forall i | 0 <= i < |rows| ensures rows[i].id in Saved(store, added).index {
      if rows[i].id !in known {
        assert NoteKey(rows[i]) == Some(rows[i].id);
        KeysCovered(rows, NoteKey, known, rows[i].id);
        var m :| 0 <= m < |added| && NoteKey(added[m]) == Some(rows[i].id);
        assert NoteIds(added)[m] == rows[i].id;
      }
    }
  }

  // ---- Exporting ----

  /** All notes with a readable body, in index order. */
  function AllNotes(store: NoteStore, n: nat): seq<Note>
    requires n <= |store.index|
  {
    if n == 0 then []
    else
      AllNotes(store, n - 1)
      + if store.index[n - 1] in store.bodies then [store.bodies[store.index[n - 1]]] else []
  }

  lemma ClaimsAppended(claims: seq<Claim>, rows: seq<RawClaim>, device: Device)
    ensures Appends(claims, ClaimsAfter(claims, rows, device), NewClaims(claims, rows), device.newClaimId)
  {
    var added := NewClaims(claims, rows);
    FirstNewAreRows(rows, ClaimKeys(claims));
    StoredAllLength(added, device.newClaimId);
    hide Stored, FirstNew, SameClaim;
    forall m | 0 <= m < |added|
      ensures SameClaim(Stored(added, device.newClaimId)[m], added[m].claim)
      ensures Stored(added, device.newClaimId)[m].id == device.newClaimId(m)
    {
      StoredAt(added, device.newClaimId, m);
    }
  }

  function ClaimRows(claims: seq<Claim>): seq<RawClaim> {
    seq(|claims|, i requires 0 <= i < |claims| => Row(claims[i]))
  }

  function BookInputs(book: seq<BookEntry>): seq<BookInput> {
    seq(|book|, i requires 0 <= i < |book| => BookInput(book[i].name, book[i].address))
  }

  function ExportAll(store: NoteStore, claims: seq<Claim>, book: seq<BookEntry>): Bundle {
    Bundle(AllNotes(store, |store.index|), ClaimRows(claims), BookInputs(book))
  }

  /** Bodies are stored under their own note's id. */
  ghost predicate Keyed(store: NoteStore) {
    forall id :: id in store.bodies ==> store.bodies[id].id == id
  }

  lemma {:induction false} ExportedIds(store: NoteStore, n: nat)
    requires Keyed(store) && n <= |store.index|
    ensures forall i :: 0 <= i < |AllNotes(store, n)| ==> AllNotes(store, n)[i].id in Ids(store.index)
  {
    if n > 0 {
      ExportedIds(store, n - 1);
    }
  }

  lemma {:induction false} SavesStayKeyed(store: NoteStore, notes: seq<Note>)
    requires Keyed(store)
    ensures Keyed(Saved(store, notes))
  {
    if notes != [] {
      SavesStayKeyed(store, notes[..|notes| - 1]);
    }
  }

  /** Normalising an entry's own address gives that address. */
  ghost predicate OwnKey(e: BookEntry, device: Device) {
    var again := device.prepare(BookInput(e.name, e.address));
    again.Some? ==> again.value.address == e.address
  }

  /** Stored addresses are normalised already. */
  ghost predicate Normalised(book: seq<BookEntry>, device: Device) {
    forall e :: e in book ==> OwnKey(e, device)
  }

  /** Restoring a wallet's own export changes none of its sections. */
  lemma OwnExportAddsNothing(store: NoteStore, claims: seq<Claim>, book: seq<BookEntry>, device: Device)
    requires Keyed(store)
    ensures NotesAfter(store, ExportAll(store, claims, book).notes, device) == store
    ensures ClaimsAfter(claims, ExportAll(store, claims, book).pendingClaims, device) == claims
    ensures Normalised(book, device) ==>
      BookAfter(book, ExportAll(store, claims, book).addressBook, device) == book
  {
    var bundle := ExportAll(store, claims, book);
    ExportedIds(store, |store.index|);
    NothingNew(bundle.notes, NoteKey, Ids(store.index));
    forall i | 0 <= i < |claims| ensures RowKey(bundle.pendingClaims[i]).value in ClaimKeys(claims) {
      assert claims[i] in claims;
    }
    NothingNew(bundle.pendingClaims, RowKey, ClaimKeys(claims));
    if Normalised(book, device) {
      OwnBookAddsNothing(store, claims, book, device);
    }
  }

  lemma OwnBookAddsNothing(store: NoteStore, claims: seq<Claim>, book: seq<BookEntry>, device: Device)
    requires Normalised(book, device)
    ensures BookAfter(book, ExportAll(store, claims, book).addressBook, device) == book
  {
    hide FirstNew, Addresses, AllNotes;
    var inputs := ExportAll(store, claims, book).addressBook;
    forall i | 0 <= i < |inputs| && InputKey(device)(inputs[i]).Some?
      ensures InputKey(device)(inputs[i]).value in Addresses(book)
    {
      assert OwnKey(book[i], device);
      AddressOf(book, book[i]);
    }
    NothingNew(inputs, InputKey(device), Addresses(book));
  }

  /** If normalising twice is normalising once, every book a run of restores can reach is normalised. */
  lemma RestoreStaysNormalised(book: seq<BookEntry>, inputs: seq<BookInput>, device: Device)
    requires Normalised(book, device)
    requires forall input: BookInput :: device.prepare(input).Some? ==> OwnKey(device.prepare(input).value, device)
    ensures Normalised(BookAfter(book, inputs, device), device)
  {
    PreparedNormalised(NewEntries(book, inputs, device), device);
  }

  lemma {:induction false} PreparedNormalised(rows: seq<BookInput>, device: Device)
    requires forall input: BookInput :: device.prepare(input).Some? ==> OwnKey(device.prepare(input).value, device)
    ensures Normalised(Prepared(rows, device), device)
  {
    if rows != [] {
      hide OwnKey;
      PreparedNormalised(rows[..|rows| - 1], device);
    }
  }

  /** Every store a run of restores can reach keeps bodies under their own ids. */
  lemma RestoreStaysKeyed(store: NoteStore, rows: seq<Note>, device: Device)
    requires Keyed(store)
    ensures Keyed(NotesAfter(store, rows, device))
  {
    SavesStayKeyed(store, Landed(FirstNew(rows, NoteKey, Ids(store.index)), device.noteLands));
  }

  // ---- Restoring an export onto an empty wallet ----

  ghost predicate KeysDistinct<R>(rows: seq<R>, keyOf: R -> Option<string>) {
    forall i, j :: 0 <= i < j < |rows| ==> keyOf(rows[i]) != keyOf(rows[j])
  }

  /** Among rows that all have a key, all are first and new exactly when no two share one. */
  lemma {:induction false} AllNewIff<R>(rows: seq<R>, keyOf: R -> Option<string>)
    requires forall i :: 0 <= i < |rows| ==> keyOf(rows[i]).Some?
    ensures FirstNew(rows, keyOf, {}) == rows <==> KeysDistinct(rows, keyOf)
    ensures |FirstNew(rows, keyOf, {})| <= |rows|
    ensures |FirstNew(rows, keyOf, {})| == |rows| <==> KeysDistinct(rows, keyOf)
  {
    if rows != [] {
      var init, last := rows[..|rows| - 1], rows[|rows| - 1];
      AllNewIff(init, keyOf);
      assert rows == init + [last];
      LastKeyIsNew(rows, keyOf);
      assert keyOf(last).Some?;
    }
  }

  lemma LastKeyIsNew<R>(rows: seq<R>, keyOf: R -> Option<string>)
    requires rows != [] && forall i :: 0 <= i < |rows| ==> keyOf(rows[i]).Some?
    ensures var init, last := rows[..|rows| - 1], rows[|rows| - 1];
      KeysDistinct(rows, keyOf) <==> KeysDistinct(init, keyOf) && keyOf(last).value !in Seen(init, keyOf, {})
  {
    var init, last := rows[..|rows| - 1], rows[|rows| - 1];
    SeenIs(init, keyOf, {}, keyOf(last).value);
    assert forall i :: 0 <= i < |init| ==> init[i] == rows[i];
    hide Seen;
    if !KeysDistinct(rows, keyOf) {
      var i, j :| 0 <= i < j < |rows| && keyOf(rows[i]) == keyOf(rows[j]);
      if j == |init| {
        assert keyOf(init[i]) == Some(keyOf(last).value);
      }
    } else {
      forall m | 0 <= m < |init| ensures keyOf(init[m]) != keyOf(last) {
        assert keyOf(rows[m]) != keyOf(rows[|init|]);
      }
    }
  }

  const NO_NOTES := NoteStore([], map[])

  /** Every exported note is a stored body under its own id. */
  lemma {:induction false} ExportedAreStored(store: NoteStore, n: nat, note: Note)
    requires Keyed(store) && n <= |store.index|
    ensures note in AllNotes(store, n) <==>
            note.id in store.index[..n] && note.id in store.bodies && store.bodies[note.id] == note
  {
    if n > 0 {
      ExportedAreStored(store, n - 1, note);
      assert store.index[..n] == store.index[..n - 1] + [store.index[n - 1]];
    }
  }

  lemma {:induction false} MergedFresh(ids: seq<string>)
    requires forall i, j :: 0 <= i < j < |ids| ==> ids[i] != ids[j]
    ensures Merged([], ids) == ids
  {
    if ids != [] {
      MergedFresh(ids[..|ids| - 1]);
      assert ids == ids[..|ids| - 1] + [ids[|ids| - 1]];
    }
  }

  lemma {:induction false} WrittenHas(bodies: map<string, Note>, notes: seq<Note>, m: nat)
    requires KeysDistinct(notes, NoteKey) && m < |notes|
    ensures notes[m].id in Written(bodies, notes) && Written(bodies, notes)[notes[m].id] == notes[m]
  {
    if m < |notes| - 1 {
      WrittenHas(bodies, notes[..|notes| - 1], m);
      assert NoteKey(notes[m]) != NoteKey(notes[|notes| - 1]);
    }
  }

  lemma FreshIndex(notes: seq<Note>)
    requires KeysDistinct(notes, NoteKey)
    ensures Saved(NO_NOTES, notes).index == NoteIds(notes)
  {
    hide Merged, Written;
    assert forall i, j :: 0 <= i < j < |notes| ==> NoteKey(notes[i]) != NoteKey(notes[j]);
    MergedFresh(NoteIds(notes));
  }

  /** A store of notes with distinct ids exports just these. */
  lemma {:induction false} FreshExport(notes: seq<Note>, n: nat)
    requires KeysDistinct(notes, NoteKey) && n <= |notes| == |Saved(NO_NOTES, notes).index|
    ensures AllNotes(Saved(NO_NOTES, notes), n) == notes[..n]
  {
    if n > 0 {
      hide Written, Merged, KeysDistinct;
      FreshExport(notes, n - 1);
      FreshIndex(notes);
      WrittenHas(map[], notes, n - 1);
      assert notes[..n] == notes[..n - 1] + [notes[n - 1]];
    }
  }

  lemma NewNotesDiffer(rows: seq<Note>, seen: set<string>)
    ensures KeysDistinct(FirstNew(rows, NoteKey, seen), NoteKey)
  {
    FirstNewNotes(rows, seen);
    hide FirstNew;
  }

  lemma {:induction false} LandedAre(notes: seq<Note>, lands: string -> bool, note: Note)
    ensures note in Landed(notes, lands) <==> note in notes && lands(note.id)
  {
    if notes != [] {
      LandedAre(notes[..|notes| - 1], lands, note);
      assert notes == notes[..|notes| - 1] + [notes[|notes| - 1]];
    }
  }

  lemma {:induction false} LandedDiffer(notes: seq<Note>, lands: string -> bool)
    requires KeysDistinct(notes, NoteKey)
    ensures KeysDistinct(Landed(notes, lands), NoteKey)
  {
    if notes != [] {
      var init, last := notes[..|notes| - 1], notes[|notes| - 1];
      LandedDiffer(init, lands);
      var before := Landed(init, lands);
      forall i | 0 <= i < |before| ensures before[i].id != last.id {
        LandedFrom(init, lands, i);
        var m :| 0 <= m < |init| && init[m] == before[i];
        assert NoteKey(notes[m]) != NoteKey(notes[|notes| - 1]);
      }
    }
  }

  /** The row a new id is taken from is its first. */
  lemma FirstRowIsNew(rows: seq<Note>, seen: set<string>, i: nat)
    requires i < |rows| && rows[i].id !in seen && forall j :: 0 <= j < i ==> rows[j].id != rows[i].id
    ensures rows[i] in FirstNew(rows, NoteKey, seen)
  {
    FirstNewExactly(rows, NoteKey, seen);
    var kept := KeptAt(rows, NoteKey, seen);
    assert IsFirstNew(rows, NoteKey, seen, i);
    assert i in kept;
    var m :| 0 <= m < |kept| && kept[m] == i;
    assert FirstNew(rows, NoteKey, seen)[m] == rows[i];
  }

  lemma NewNoteIs(rows: seq<Note>, seen: set<string>, note: Note)
    requires note in FirstNew(rows, NoteKey, seen)
    ensures note.id !in seen && note in rows && HasNote(rows, note.id)
  {
    FirstNewExactly(rows, NoteKey, seen);
    var kept, out := KeptAt(rows, NoteKey, seen), FirstNew(rows, NoteKey, seen);
    hide FirstNew, KeptAt;
    var m :| 0 <= m < |out| && out[m] == note;
    assert kept[m] in kept && IsFirstNew(rows, NoteKey, seen, kept[m]);
  }

  lemma NewIdIs(rows: seq<Note>, seen: set<string>, id: string) returns (note: Note)
    requires id !in seen && HasNote(rows, id)
    ensures note in FirstNew(rows, NoteKey, seen) && note.id == id
  {
    var i :| 0 <= i < |rows| && rows[i].id == id;
    assert NoteKey(rows[i]) == Some(id);
    KeysCovered(rows, NoteKey, seen, id);
    var out := FirstNew(rows, NoteKey, seen);
    hide FirstNew;
    var m :| 0 <= m < |out| && NoteKey(out[m]) == Some(id);
    note := out[m];
  }

  lemma IndexedNotes(store: NoteStore, rows: seq<Note>, device: Device, id: string)
    ensures id in NotesAfter(store, rows, device).index <==>
            id in store.index || (device.noteLands(id) && HasNote(rows, id))
  {
    var seen := Ids(store.index);
    var added := FirstNew(rows, NoteKey, seen);
    var landed := Landed(added, device.noteLands);
    MergedGrows(store.index, NoteIds(landed));
    hide FirstNew, Landed, Merged, Written;
    if id in NoteIds(landed) {
      var m :| 0 <= m < |landed| && NoteIds(landed)[m] == id;
      LandedAre(added, device.noteLands, landed[m]);
      NewNoteIs(rows, seen, landed[m]);
    }
    if id !in store.index && device.noteLands(id) && HasNote(rows, id) {
      var note := NewIdIs(rows, seen, id);
      LandedAre(added, device.noteLands, note);
      var m :| 0 <= m < |landed| && landed[m] == note;
      assert NoteIds(landed)[m] == id;
    }
  }

  lemma NewBody(store: NoteStore, rows: seq<Note>, device: Device, i: nat)
    requires i < |rows| && rows[i].id !in store.index && device.noteLands(rows[i].id)
    requires forall j :: 0 <= j < i ==> rows[j].id != rows[i].id
    ensures var after := NotesAfter(store, rows, device);
      rows[i].id in after.bodies && after.bodies[rows[i].id] == rows[i]
  {
    var seen := Ids(store.index);
    var added := FirstNew(rows, NoteKey, seen);
    var landed := Landed(added, device.noteLands);
    FirstRowIsNew(rows, seen, i);
    NewNotesDiffer(rows, seen);
    LandedDiffer(added, device.noteLands);
    LandedAre(added, device.noteLands, rows[i]);
    hide FirstNew, Landed, Merged, Written;
    var m :| 0 <= m < |landed| && landed[m] == rows[i];
    WrittenHas(store.bodies, landed, m);
  }

  lemma OldBody(store: NoteStore, rows: seq<Note>, device: Device, id: string)
    requires id in store.index || !device.noteLands(id) || !HasNote(rows, id)
    ensures var after := NotesAfter(store, rows, device);
      (id in after.bodies <==> id in store.bodies) && (id in store.bodies ==> after.bodies[id] == store.bodies[id])
  {
    var seen := Ids(store.index);
    var added := FirstNew(rows, NoteKey, seen);
    var landed := Landed(added, device.noteLands);
    hide FirstNew, Landed, Merged, Written;
    forall m | 0 <= m < |landed| ensures landed[m].id != id {
      LandedAre(added, device.noteLands, landed[m]);
      NewNoteIs(rows, seen, landed[m]);
    }
    WrittenKeeps(store.bodies, landed, id);
  }

  lemma NotesMerged(store: NoteStore, rows: seq<Note>, device: Device)
    ensures MergesNotes(store, NotesAfter(store, rows, device), rows, device.noteLands)
  {
    MergedGrows(store.index, NoteIds(Landed(FirstNew(rows, NoteKey, Ids(store.index)), device.noteLands)));
    var after := NotesAfter(store, rows, device);
    assert store.index <= after.index;
    hide NotesAfter, HasNote;
    forall id ensures id in after.index <==> id in store.index || (device.noteLands(id) && HasNote(rows, id)) {
      IndexedNotes(store, rows, device, id);
    }
    forall i | 0 <= i < |rows| && rows[i].id !in store.index && device.noteLands(rows[i].id)
               && (forall j :: 0 <= j < i ==> rows[j].id != rows[i].id)
      ensures rows[i].id in after.bodies && after.bodies[rows[i].id] == rows[i]
    {
      NewBody(store, rows, device, i);
    }
    forall id | id in store.index || !device.noteLands(id) || !HasNote(rows, id)
      ensures id in after.bodies <==> id in store.bodies
      ensures id in store.bodies ==> after.bodies[id] == store.bodies[id]
    {
      OldBody(store, rows, device, id);
    }
  }

  lemma NotesComeBack(store: NoteStore, device: Device)
    requires Keyed(store) && forall id :: device.noteLands(id)
    ensures var exported := AllNotes(store, |store.index|);
      var restored := NotesAfter(NO_NOTES, exported, device);
      && restored == Saved(NO_NOTES, FirstNew(exported, NoteKey, {}))
      && (forall note :: note in AllNotes(restored, |restored.index|) <==> note in exported)
      && (AllNotes(restored, |restored.index|) == exported <==> KeysDistinct(exported, NoteKey))
  {
    var exported := AllNotes(store, |store.index|);
    var added := FirstNew(exported, NoteKey, {});
    assert Ids(NO_NOTES.index) == {};
    AllLand(added, device.noteLands);
    hide FirstNew, AllNotes, Written, Merged, Landed, KeysDistinct;
    NewNotesDiffer(exported, {});
    FreshIndex(added);
    FreshExport(added, |added|);
    assert added[..|added|] == added;
    AllNewIff(exported, NoteKey);
    forall note ensures note in added <==> note in exported {
      SameNotes(store, note);
    }
  }

  lemma SameNotes(store: NoteStore, note: Note)
    requires Keyed(store)
    ensures var exported := AllNotes(store, |store.index|);
      note in FirstNew(exported, NoteKey, {}) <==> note in exported
  {
    var exported := AllNotes(store, |store.index|);
    var added := FirstNew(exported, NoteKey, {});
    FirstNewExactly(exported, NoteKey, {});
    hide FirstNew, AllNotes;
    if note in exported {
      var i :| 0 <= i < |exported| && exported[i] == note;
      assert NoteKey(exported[i]) == Some(note.id);
      KeysCovered(exported, NoteKey, {}, note.id);
      var m :| 0 <= m < |added| && NoteKey(added[m]) == Some(note.id);
      ExportedAreStored(store, |store.index|, note);
      ExportedAreStored(store, |store.index|, added[m]);
    }
  }

  /** The same claims in the same order, under whatever ids; an empty order id counts as none. */
  ghost predicate SameButIds(a: seq<Claim>, b: seq<Claim>) {
    |a| == |b| && forall i :: 0 <= i < |a| ==> SameClaim(a[i], b[i])
  }

  lemma {:induction false} StoredAt(rows: seq<RawClaim>, newClaimId: nat -> string, i: nat)
    requires AllRows(rows) && i < |rows|
    ensures |Stored(rows, newClaimId)| == |rows|
    ensures SameClaim(Stored(rows, newClaimId)[i], rows[i].claim) && Stored(rows, newClaimId)[i].id == newClaimId(i)
  {
    StoredAllLength(rows[..|rows| - 1], newClaimId);
    if i < |rows| - 1 {
      StoredAt(rows[..|rows| - 1], newClaimId, i);
    }
  }

  lemma ClaimsComeBack(claims: seq<Claim>, device: Device)
    ensures SameButIds(ClaimsAfter([], ClaimRows(claims), device), claims) <==>
            KeysDistinct(ClaimRows(claims), RowKey)
  {
    var rows := ClaimRows(claims);
    RowsHaveKeys(claims);
    OntoNoClaims(rows, device);
    hide *;
    AllNewIff(rows, RowKey);
    StoredLength(rows, {}, device.newClaimId);
    if KeysDistinct(rows, RowKey) {
      StoredSame(claims, device.newClaimId);
    } else {
      LengthsDiffer(Stored(FirstNew(rows, RowKey, {}), device.newClaimId), claims);
    }
  }

  lemma RowsHaveKeys(claims: seq<Claim>)
    ensures |ClaimRows(claims)| == |claims| && AllRows(ClaimRows(claims))
    ensures forall i :: 0 <= i < |claims| ==> RowKey(ClaimRows(claims)[i]).Some?
  {
    hide ClaimKey;
  }

  lemma OntoNoClaims(rows: seq<RawClaim>, device: Device)
    ensures ClaimsAfter([], rows, device) == Stored(FirstNew(rows, RowKey, {}), device.newClaimId)
  {
    hide FirstNew, Stored, ClaimKey;
    assert ClaimKeys([]) == {};
  }

  lemma StoredSame(claims: seq<Claim>, newClaimId: nat -> string)
    ensures SameButIds(Stored(ClaimRows(claims), newClaimId), claims)
  {
    RowsHaveKeys(claims);
    StoredAllLength(ClaimRows(claims), newClaimId);
    hide Stored, SameClaim, RowKey, AllRows;
    forall i | 0 <= i < |claims| ensures SameClaim(Stored(ClaimRows(claims), newClaimId)[i], claims[i]) {
      StoredAt(ClaimRows(claims), newClaimId, i);
    }
  }

  lemma LengthsDiffer(a: seq<Claim>, b: seq<Claim>)
    requires |a| != |b|
    ensures !SameButIds(a, b)
  {
  }

  /** Preparing a stored entry again gives that entry. */
  ghost predicate Repeatable(book: seq<BookEntry>, device: Device) {
    forall i :: 0 <= i < |book| ==> device.prepare(BookInput(book[i].name, book[i].address)) == Some(book[i])
  }

  lemma {:induction false} PreparedBack(book: seq<BookEntry>, device: Device)
    requires Repeatable(book, device)
    ensures Prepared(BookInputs(book), device) == book
  {
    if book != [] {
      var init := book[..|book| - 1];
      assert BookInputs(init) == BookInputs(book)[..|book| - 1];
      PreparedBack(init, device);
    }
  }

  lemma {:induction false} PreparedLength(inputs: seq<BookInput>, device: Device)
    ensures |Prepared(inputs, device)| <= |inputs|
  {
    if inputs != [] {
      PreparedLength(inputs[..|inputs| - 1], device);
    }
  }

  lemma BookKeys(book: seq<BookEntry>, device: Device)
    requires Repeatable(book, device)
    ensures forall i :: 0 <= i < |book| ==> InputKey(device)(BookInputs(book)[i]).Some?
  {
  }

  lemma OntoEmptyBook(inputs: seq<BookInput>, device: Device)
    ensures BookAfter([], inputs, device) == Prepared(FirstNew(inputs, InputKey(device), {}), device)
  {
    assert Addresses([]) == {};
  }

  lemma BookComesBack(book: seq<BookEntry>, device: Device)
    requires Repeatable(book, device)
    ensures BookAfter([], BookInputs(book), device) == book <==> KeysDistinct(BookInputs(book), InputKey(device))
  {
    hide FirstNew, Prepared, KeysDistinct, InputKey, Repeatable, BookAfter;
    var inputs := BookInputs(book);
    OntoEmptyBook(inputs, device);
    BookKeys(book, device);
    AllNewIff(inputs, InputKey(device));
    PreparedBack(book, device);
    PreparedLength(FirstNew(inputs, InputKey(device), {}), device);
  }

  /**
   A backup's purpose: restoring an export onto an empty wallet brings back every note, and each
   section is the exported one, in order, exactly when no two of its rows share a key.
   */
  lemma ExportRestoresWallet(store: NoteStore, claims: seq<Claim>, book: seq<BookEntry>, device: Device)
    requires Keyed(store) && AllLands(device)
    ensures var file := ExportAll(store, claims, book);
      var restored := NotesAfter(NO_NOTES, file.notes, device);
      && (forall note :: note in AllNotes(restored, |restored.index|) <==> note in file.notes)
      && (AllNotes(restored, |restored.index|) == file.notes <==> KeysDistinct(file.notes, NoteKey))
      && (SameButIds(ClaimsAfter([], file.pendingClaims, device), claims) <==>
          KeysDistinct(file.pendingClaims, RowKey))
      && (Repeatable(book, device) ==>
          (BookAfter([], file.addressBook, device) == book <==> KeysDistinct(file.addressBook, InputKey(device))))
  {
    hide FirstNew, AllNotes, KeysDistinct, SameButIds, Prepared, Stored;
    NotesComeBack(store, device);
    ClaimsComeBack(claims, device);
    if Repeatable(book, device) {
      BookComesBack(book, device);
    }
  }
}
