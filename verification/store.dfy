/**
 * The record store kept in the ledger's key-value map: `record_keys` holds
 * the JSON list of record ids and `record_<id>` holds each record's JSON
 * blob. `loadRecords` turns the map into the listed records and
 * `submitRecord` writes a new blob and then the extended index.
 */
module Store {
  import opened Wrappers
  import opened Json
  import opened Codec
  import Decimal
  import Sorting

  const IndexKey: string := "record_keys"
  const RecordPrefix: string := "record_"

  function RecordKey(id: string): string {
    RecordPrefix + id
  }

  /** The ledger's storage: key to bytes. */
  type Ledger = map<string, Bytes>

  /** `getData(key)`: a key never written reads as no bytes. */
  function Read(l: Ledger, key: string): Bytes {
    if key in l then l[key] else []
  }

  /** A listed record: the `EncryptedRecord` built from one parsed blob. */
  datatype Record = Record(
    id: string,
    encryptedData: Field,
    timestamp: Field,
    owner: Field,
    category: Field,
    description: Json,
    status: Json)

  const Pending: Json := Str("pending")
  const Verified: Json := Str("verified")
  const Rejected: Json := Str("rejected")

  /** The listed record for a parsed blob stored under `id`. */
  function FromObject(id: string, o: Object): (r: Record)
    ensures r.id == id
    ensures r.encryptedData == Member(o, "data") && r.timestamp == Member(o, "timestamp")
    ensures r.owner == Member(o, "owner") && r.category == Member(o, "category")
    ensures !Truthy(Member(o, "description")) ==> r.description == Str("")
    ensures Truthy(Member(o, "description")) ==> r.description == o["description"]
    ensures !Truthy(Member(o, "status")) ==> r.status == Pending
    ensures Truthy(Member(o, "status")) ==> r.status == o["status"]
  {
    Record(id, Member(o, "data"), Member(o, "timestamp"), Member(o, "owner"), Member(o, "category"),
           OrDefault(Member(o, "description"), ""), OrDefault(Member(o, "status"), "pending"))
  }

  /** The keys `for…of` visits in a string: its characters, one at a time. */
  function Characters(s: string): (keys: seq<string>)
    ensures |keys| == |s| && forall i :: 0 <= i < |s| ==> keys[i] == [s[i]]
  {
    seq(|s|, i requires 0 <= i < |s| => [s[i]])
  }

  /**
   * What `loadRecords` does with the index: a missing, undecodable, blank
   * or unparsable index is no ids, and so is a parsed non-array (which
   * `IndexIterable` rules out, since the loop over it throws).
   */
  function ListedIds(sx: Syntax, l: Ledger): seq<string> {
    var bytes := Read(l, IndexKey);
    if |bytes| == 0 then []
    else match sx.utf8Decode(bytes)
      case None => []
      case Some(text) =>
        if IsBlank(text) then []
        else match sx.parseIds(text)
          case None => []
          case Some(IdList(ids)) => ids
          case Some(IdString(str)) => Characters(str)
          case Some(NotList) => []
  }

  /** The listed ids depend on the index bytes alone. */
  lemma SameIndexSameIds(sx: Syntax, l1: Ledger, l2: Ledger)
    requires Read(l1, IndexKey) == Read(l2, IndexKey)
    ensures ListedIds(sx, l1) == ListedIds(sx, l2)
  {
  }

  /** Whether `for (const key of keys)` can run over the index `loadRecords` reads. */
  predicate IndexIterable(sx: Syntax, l: Ledger) {
    var bytes := Read(l, IndexKey);
    || |bytes| == 0
    || sx.utf8Decode(bytes).None?
    || IsBlank(sx.utf8Decode(bytes).value)
    || sx.parseIds(sx.utf8Decode(bytes).value) != Some(NotList)
  }

  /**
   * The id list `submitRecord` reads before appending (no blank check):
   * anything that fails to decode or parse reads as empty, and `None`
   * when it parses to a value other than an array, whose `push` throws.
   */
  function StoredIds(sx: Syntax, bytes: Bytes): (r: Option<seq<string>>)
    ensures r.None? <==> |bytes| > 0 && sx.utf8Decode(bytes).Some?
                         && sx.parseIds(sx.utf8Decode(bytes).value).Some?
                         && !sx.parseIds(sx.utf8Decode(bytes).value).value.IdList?
  {
    if |bytes| == 0 then Some([])
    else match sx.utf8Decode(bytes)
      case None => Some([])
      case Some(text) =>
        match sx.parseIds(text)
        case None => Some([])
        case Some(IdList(ids)) => Some(ids)
        case Some(_) => None
  }

  /**
   * Reads and parses the blob under `id`: "Record not found" when it is
   * empty, and a parse failure when its bytes or text do not decode.
   */
  function ReadObject(sx: Syntax, l: Ledger, id: string): (r: Result<Object, Error>)
    ensures |Read(l, RecordKey(id))| == 0 <==> r == Failure(NotFound)
    ensures r.Failure? ==> r.error == NotFound || r.error == Malformed
  {
    var bytes := Read(l, RecordKey(id));
    if |bytes| == 0 then Failure(NotFound)
    else match sx.utf8Decode(bytes)
      case None => Failure(Malformed)
      case Some(text) =>
        match sx.parseObject(text)
        case None => Failure(Malformed)
        case Some(o) => Success(o)
  }

  /** The record stored under `id`, or `None` when its blob is empty or does not parse. */
  function RecordAt(sx: Syntax, l: Ledger, id: string): (r: Option<Record>)
    ensures |Read(l, RecordKey(id))| == 0 ==> r.None?
    ensures r.Some? ==> r.value.id == id
  {
    match ReadObject(sx, l, id)
    case Success(o) => Some(FromObject(id, o))
    case Failure(_) => None
  }

  /**
   * The loop over the index: each id's record in index order, skipping the
   * ids whose record cannot be read.
   */
  function Collect(sx: Syntax, l: Ledger, ids: seq<string>): (r: seq<Record>)
    ensures |r| <= |ids|
    ensures forall rec :: rec in r <==> exists i :: 0 <= i < |ids| && RecordAt(sx, l, ids[i]) == Some(rec)
    decreases |ids|
  {
    if |ids| == 0 then []
    else
      var init := ids[..|ids| - 1];
      var last := ids[|ids| - 1];
      assert forall i :: 0 <= i < |init| ==> init[i] == ids[i];
      Collect(sx, l, init) + (match RecordAt(sx, l, last) case Some(rec) => [rec] case None => [])
  }

  /** The collected records of two id lists side by side are the records of both. */
  lemma {:induction false} CollectAppend(sx: Syntax, l: Ledger, a: seq<string>, b: seq<string>)
    ensures Collect(sx, l, a + b) == Collect(sx, l, a) + Collect(sx, l, b)
    decreases |b|
  {
    if |b| > 0 {
      var b' := b[..|b| - 1];
      CollectAppend(sx, l, a, b');
      assert (a + b)[..|a + b| - 1] == a + b';
      assert (a + b)[|a + b| - 1] == b[|b| - 1];
    } else {
      assert a + b == a;
    }
  }

  /** An unreadable record is skipped without disturbing the rest of the listing. */
  lemma SkipUnreadable(sx: Syntax, l: Ledger, a: seq<string>, id: string, b: seq<string>)
    requires RecordAt(sx, l, id).None?
    ensures Collect(sx, l, a + [id] + b) == Collect(sx, l, a) + Collect(sx, l, b)
  {
    CollectAppend(sx, l, a + [id], b);
    CollectAppend(sx, l, a, [id]);
    assert Collect(sx, l, [id]) == [] by {
      assert [id][..0] == [];
      assert Collect(sx, l, [id]) == Collect(sx, l, []) + [];
    }
    assert Collect(sx, l, a + [id]) == Collect(sx, l, a);
  }

  /**
   * The number `b.timestamp - a.timestamp` sees: JSON numbers as they are,
   * `null` as 0, booleans as 0 or 1, anything else (and `undefined`) as NaN.
   */
  function TimeRank(r: Record): Option<real> {
    match r.timestamp
    case Some(Num(n)) => Some(n)
    case Some(Null) => Some(0.0)
    case Some(Bool(b)) => Some(if b then 1.0 else 0.0)
    case _ => None
  }

  /** The records `loadRecords` lists, newest first, when the loop over the index runs. */
  function ListRecords(sx: Syntax, l: Ledger): (r: seq<Record>)
    ensures multiset(r) == multiset(Collect(sx, l, ListedIds(sx, l)))
    ensures Sorting.Ranked(TimeRank, Collect(sx, l, ListedIds(sx, l))) ==>
              Sorting.Ranked(TimeRank, r) && Sorting.NonIncreasing(TimeRank, r)
  {
    Sorting.SortBy(TimeRank, Collect(sx, l, ListedIds(sx, l)))
  }

  /** Records stamped 10, 30 and 20 are listed as 30, 20, 10. */
  lemma ListingOrderExample(a: Record, b: Record, c: Record)
    requires a.timestamp == Some(Num(10.0)) && b.timestamp == Some(Num(30.0)) && c.timestamp == Some(Num(20.0))
    ensures Sorting.SortBy(TimeRank, [a, b, c]) == [b, c, a]
  {
    assert [a, b, c][..2] == [a, b];
    assert [a, b][..1] == [a];
    assert [a][..0] == [];
    assert Sorting.SortBy(TimeRank, [a]) == [a];
    assert Sorting.SortBy(TimeRank, [a, b]) == [b, a];
    assert Sorting.Insert(TimeRank, [b, a], c) == [b] + Sorting.Insert(TimeRank, [a], c);
  }

  /** A record is listed exactly when some index entry reads as it. */
  lemma ListedExactly(sx: Syntax, l: Ledger, rec: Record)
    ensures rec in ListRecords(sx, l) <==>
              exists i :: 0 <= i < |ListedIds(sx, l)| && RecordAt(sx, l, ListedIds(sx, l)[i]) == Some(rec)
  {
    assert rec in ListRecords(sx, l) <==> rec in multiset(ListRecords(sx, l));
    assert rec in Collect(sx, l, ListedIds(sx, l)) <==> rec in multiset(Collect(sx, l, ListedIds(sx, l)));
  }

  /** An index that is missing, undecodable, blank or does not parse as JSON lists no record. */
  lemma UnreadableIndexListsNothing(sx: Syntax, l: Ledger)
    requires var bytes := Read(l, IndexKey);
             || |bytes| == 0
             || sx.utf8Decode(bytes).None?
             || IsBlank(sx.utf8Decode(bytes).value)
             || sx.parseIds(sx.utf8Decode(bytes).value).None?
    ensures ListRecords(sx, l) == []
  {
    assert ListedIds(sx, l) == [];
  }

  /** A JSON string as the index lists the records under its single characters. */
  lemma StringIndexListsCharacters(sx: Syntax, l: Ledger, str: string)
    requires |Read(l, IndexKey)| > 0 && sx.utf8Decode(Read(l, IndexKey)).Some?
    requires !IsBlank(sx.utf8Decode(Read(l, IndexKey)).value)
    requires sx.parseIds(sx.utf8Decode(Read(l, IndexKey)).value) == Some(IdString(str))
    ensures |ListedIds(sx, l)| == |str|
    ensures forall i :: 0 <= i < |str| ==> ListedIds(sx, l)[i] == [str[i]]
    ensures IndexIterable(sx, l)
  {
  }

  /**
   * `loadRecords`: with no ledger handle, or one that reports itself
   * unavailable, or an index that parses to a non-array the loop cannot
   * walk (the outer catch swallows the error), the shown list is left as
   * it was (`None`).
   */
  function LoadRecords(available: bool, sx: Syntax, l: Ledger): (r: Option<seq<Record>>)
    ensures r.Some? <==> available && IndexIterable(sx, l)
    ensures r.Some? ==> multiset(r.value) == multiset(Collect(sx, l, ListedIds(sx, l)))
    ensures r.Some? && Sorting.Ranked(TimeRank, Collect(sx, l, ListedIds(sx, l))) ==>
              Sorting.Ranked(TimeRank, r.value) && Sorting.NonIncreasing(TimeRank, r.value)
  {
    if available && IndexIterable(sx, l) then Some(ListRecords(sx, l)) else None
  }

  // ---------------------------------------------------------------- submit

  /**
   * The wallet side of a session: connection, address, whether a read-only
   * and a signing contract handle can be had, and how many transactions the
   * user signs before rejecting one.
   */
  datatype Session = Session(
    connected: bool,
    address: Option<string>,
    hasReader: bool,
    hasSigner: bool,
    approvals: nat)

  datatype Error = NotConnected | NoReader | NoSigner | Encoding | NotFound | Malformed | BadToken | UserRejected | IndexNotList

  /** The ledger after an operation, and what the operation reported. */
  datatype Outcome<T> = Outcome(ledger: Ledger, result: Result<T, Error>)

  /** The create form's fields. */
  datatype Draft = Draft(category: string, description: string, value: JsNumber)

  /** `!category || !sensitiveValue` rejects the form; NaN and 0 are falsy. */
  function FormAccepts(d: Draft): (ok: bool)
    ensures ok ==> d.category != ""
    ensures ok ==> !d.value.NaN? && d.value != Finite(0.0)
    ensures d.category != "" && d.value.Infinity? ==> ok
    ensures d.category != "" && d.value.Finite? && d.value.value != 0.0 ==> ok
  {
    d.category != "" && match d.value
      case NaN => false
      case Infinity(_) => true
      case Finite(v) => v != 0.0
  }

  /** `${Date.now()}-${random suffix}`. */
  function RecordId(nowMs: nat, suffix: string): string {
    Decimal.Show(nowMs) + "-" + suffix
  }

  /** No generated id can make a record's key collide with the index key. */
  lemma RecordKeyIsNotIndexKey(nowMs: nat, suffix: string)
    ensures RecordKey(RecordId(nowMs, suffix)) != IndexKey
  {
    var k := RecordKey(RecordId(nowMs, suffix));
    assert k[7] == Decimal.Show(nowMs)[0];
    assert IndexKey[7] == 'k';
  }

  /** The blob of a new record; `JSON.stringify` drops an `undefined` owner. */
  function NewRecordObject(token: string, stampMs: nat, address: Option<string>, d: Draft): (o: Object)
    ensures Member(o, "data") == Some(Str(token))
    ensures Member(o, "status") == Some(Pending)
    ensures Member(o, "timestamp") == Some(Num((stampMs / 1000) as real))
    ensures Member(o, "category") == Some(Str(d.category))
    ensures Member(o, "description") == Some(Str(d.description))
    ensures address.Some? <==> "owner" in o
    ensures address.Some? ==> o["owner"] == Str(address.value)
  {
    var base := map["data" := Str(token), "timestamp" := Num((stampMs / 1000) as real),
                    "category" := Str(d.category), "description" := Str(d.description),
                    "status" := Pending];
    if address.Some? then base["owner" := Str(address.value)] else base
  }

  /** One `setData(key, bytes)` transaction. */
  datatype Write = Write(key: string, value: Bytes)

  /** The ledger after the given transactions, in order. */
  function Apply(l: Ledger, ws: seq<Write>): (r: Ledger)
    ensures forall k :: (forall i :: 0 <= i < |ws| ==> ws[i].key != k) ==> Read(r, k) == Read(l, k)
    decreases |ws|
  {
    if |ws| == 0 then l else Apply(l[ws[0].key := ws[0].value], ws[1..])
  }

  /**
   * The transactions a submission attempts: the blob first, then the index
   * read back after it and extended by the new id. When that index parses
   * to something other than an array, `keys.push` throws between the two
   * and only the blob is attempted.
   */
  function SubmitWrites(sx: Syntax, l: Ledger, id: string, o: Object): (ws: seq<Write>)
    ensures 1 <= |ws| <= 2 && ws[0].key == RecordKey(id)
    ensures ws[0].value == sx.utf8Encode(sx.stringifyObject(o))
    ensures |ws| == 2 <==> StoredIds(sx, Read(l[RecordKey(id) := ws[0].value], IndexKey)).Some?
    ensures |ws| == 2 ==> ws[1] == Write(IndexKey, sx.utf8Encode(sx.stringifyIds(
                            StoredIds(sx, Read(l[RecordKey(id) := ws[0].value], IndexKey)).value + [id])))
  {
    var blob := sx.utf8Encode(sx.stringifyObject(o));
    var afterBlob := l[RecordKey(id) := blob];
    match StoredIds(sx, Read(afterBlob, IndexKey))
    case None => [Write(RecordKey(id), blob)]
    case Some(ids) => [Write(RecordKey(id), blob), Write(IndexKey, sx.utf8Encode(sx.stringifyIds(ids + [id])))]
  }

  /**
   * `submitRecord`. Only the transactions the user approved reach the
   * ledger: with one approval the blob is written but the index is not,
   * and an index that is not an array leaves the blob written and fails.
   */
  function Submit(ns: NumberSyntax, sx: Syntax, s: Session, l: Ledger, d: Draft,
                  nowMs: nat, suffix: string, stampMs: nat): (out: Outcome<string>)
    ensures out.result.Success? <==>
              && s.connected && Encrypt(ns, d.value).Success? && s.hasSigner && s.approvals >= 2
              && StoredIds(sx, Read(l, IndexKey)).Some?
    ensures out.result.Success? ==> out.result.value == RecordId(nowMs, suffix)
    ensures out.result == Failure(IndexNotList) <==>
              && s.connected && Encrypt(ns, d.value).Success? && s.hasSigner && s.approvals >= 1
              && StoredIds(sx, Read(l, IndexKey)).None?
    ensures out.result.Failure? && out.result.error != UserRejected && out.result.error != IndexNotList ==> out.ledger == l
    ensures out.result.Failure? ==> Read(out.ledger, IndexKey) == Read(l, IndexKey)
    ensures forall k :: k != IndexKey && k != RecordKey(RecordId(nowMs, suffix)) ==> Read(out.ledger, k) == Read(l, k)
  {
    if !s.connected then Outcome(l, Failure(NotConnected))
    else match Encrypt(ns, d.value)
      case Failure(_) => Outcome(l, Failure(Encoding))
      case Success(token) =>
        if !s.hasSigner then Outcome(l, Failure(NoSigner))
        else
          var id := RecordId(nowMs, suffix);
          RecordKeyIsNotIndexKey(nowMs, suffix);
          var ws := SubmitWrites(sx, l, id, NewRecordObject(token, stampMs, s.address, d));
          assert Read(l[RecordKey(id) := ws[0].value], IndexKey) == Read(l, IndexKey);
          if s.approvals < |ws| then Outcome(Apply(l, ws[..s.approvals]), Failure(UserRejected))
          else if |ws| == 1 then Outcome(Apply(l, ws), Failure(IndexNotList))
          else Outcome(Apply(l, ws), Success(id))
  }

  /**
   * Under real JSON, blank text fails to parse, so both index readers see
   * the same ids whenever the submit reader can append to them.
   */
  lemma ReadersAgree(sx: Syntax, l: Ledger)
    requires Coherent(sx)
    ensures StoredIds(sx, Read(l, IndexKey)).Some? ==> StoredIds(sx, Read(l, IndexKey)).value == ListedIds(sx, l)
    ensures StoredIds(sx, Read(l, IndexKey)).Some? ==> IndexIterable(sx, l)
  {
  }

  /** An index written by the app reads back as the list it wrote. */
  lemma IndexReadsBack(sx: Syntax, l: Ledger, ids: seq<string>)
    requires Coherent(sx)
    ensures ListedIds(sx, l[IndexKey := sx.utf8Encode(sx.stringifyIds(ids))]) == ids
  {
    var text := sx.stringifyIds(ids);
    assert !IsBlank(text);
    assert |text| > 0;
  }

  /** A blob written by the app reads back as the listed record of its object. */
  lemma BlobReadsBack(sx: Syntax, l: Ledger, id: string, o: Object)
    requires Coherent(sx) && ObjectReadsBack(sx, o)
    ensures RecordAt(sx, l[RecordKey(id) := sx.utf8Encode(sx.stringifyObject(o))], id) == Some(FromObject(id, o))
  {
    var text := sx.stringifyObject(o);
    assert !IsBlank(text);
    assert |text| > 0;
  }

  /** The ledger after a fully approved submission: the blob, then the index. */
  lemma SubmitLedger(ns: NumberSyntax, sx: Syntax, s: Session, l: Ledger, d: Draft,
                     nowMs: nat, suffix: string, stampMs: nat)
    requires Submit(ns, sx, s, l, d, nowMs, suffix, stampMs).result.Success?
    ensures var id := RecordId(nowMs, suffix);
            var o := NewRecordObject(Encrypt(ns, d.value).value, stampMs, s.address, d);
            var blob := sx.utf8Encode(sx.stringifyObject(o));
            && StoredIds(sx, Read(l, IndexKey)).Some?
            && Submit(ns, sx, s, l, d, nowMs, suffix, stampMs).ledger
                 == l[RecordKey(id) := blob][IndexKey := sx.utf8Encode(sx.stringifyIds(
                      StoredIds(sx, Read(l, IndexKey)).value + [id]))]
  {
    var id := RecordId(nowMs, suffix);
    RecordKeyIsNotIndexKey(nowMs, suffix);
    var o := NewRecordObject(Encrypt(ns, d.value).value, stampMs, s.address, d);
    var ws := SubmitWrites(sx, l, id, o);
    var l1 := l[RecordKey(id) := ws[0].value];
    assert Read(l1, IndexKey) == Read(l, IndexKey);
    assert |ws| == 2;
    assert Apply(l, ws) == Apply(l1, ws[1..]);
    assert Apply(l1, ws[1..]) == Apply(l1[IndexKey := ws[1].value], ws[2..]);
  }

  /**
   * After a submission, the index lists the old ids (as the listing read
   * them, an unreadable index counting as none) followed by the new id.
   */
  lemma IndexAfterSubmit(ns: NumberSyntax, sx: Syntax, s: Session, l: Ledger, d: Draft,
                         nowMs: nat, suffix: string, stampMs: nat)
    requires Coherent(sx)
    requires Submit(ns, sx, s, l, d, nowMs, suffix, stampMs).result.Success?
    ensures ListedIds(sx, Submit(ns, sx, s, l, d, nowMs, suffix, stampMs).ledger)
              == ListedIds(sx, l) + [RecordId(nowMs, suffix)]
  {
    var id := RecordId(nowMs, suffix);
    SubmitLedger(ns, sx, s, l, d, nowMs, suffix, stampMs);
    ReadersAgree(sx, l);
    var o := NewRecordObject(Encrypt(ns, d.value).value, stampMs, s.address, d);
    var l1 := l[RecordKey(id) := sx.utf8Encode(sx.stringifyObject(o))];
    IndexReadsBack(sx, l1, StoredIds(sx, Read(l, IndexKey)).value + [id]);
  }

  /**
   * After a submission, the new record is listed, pending, and its token
   * decodes to the submitted value (when the new blob's JSON and the
   * value's text read back).
   */
  lemma SubmittedRecordIsListed(ns: NumberSyntax, sx: Syntax, s: Session, l: Ledger, d: Draft,
                                nowMs: nat, suffix: string, stampMs: nat)
    requires Coherent(sx) && ReadsBack(ns, d.value)
    requires Submit(ns, sx, s, l, d, nowMs, suffix, stampMs).result.Success?
    requires ObjectReadsBack(sx, NewRecordObject(Encrypt(ns, d.value).value, stampMs, s.address, d))
    ensures exists rec :: rec in ListRecords(sx, Submit(ns, sx, s, l, d, nowMs, suffix, stampMs).ledger)
              && rec.id == RecordId(nowMs, suffix)
              && rec.status == Pending
              && rec.encryptedData.Some? && rec.encryptedData.value.Str?
              && Decrypt(ns, rec.encryptedData.value.s) == Success(d.value)
  {
    var id := RecordId(nowMs, suffix);
    var out := Submit(ns, sx, s, l, d, nowMs, suffix, stampMs);
    var token := Encrypt(ns, d.value).value;
    var o := NewRecordObject(token, stampMs, s.address, d);
    var blob := sx.utf8Encode(sx.stringifyObject(o));
    SubmitLedger(ns, sx, s, l, d, nowMs, suffix, stampMs);
    var ids := StoredIds(sx, Read(l, IndexKey)).value + [id];
    RecordKeyIsNotIndexKey(nowMs, suffix);
    BlobReadsBack(sx, l, id, o);
    var l1 := l[RecordKey(id) := blob];
    assert out.ledger == l1[IndexKey := sx.utf8Encode(sx.stringifyIds(ids))];
    assert RecordAt(sx, out.ledger, id) == RecordAt(sx, l1, id) by {
      assert Read(out.ledger, RecordKey(id)) == Read(l1, RecordKey(id));
    }
    IndexAfterSubmit(ns, sx, s, l, d, nowMs, suffix, stampMs);
    var listed := ListedIds(sx, out.ledger);
    var rec := FromObject(id, o);
    assert listed[|listed| - 1] == id;
    assert RecordAt(sx, out.ledger, listed[|listed| - 1]) == Some(rec);
    ListedExactly(sx, out.ledger, rec);
    NumberRoundTrip(ns, d.value);
  }

  /**
   * When the user rejects the index transaction, or the stored index is
   * not an array, the blob is stored (and readable, when its JSON reads
   * back) but the index is untouched, so the listing does not see it: the
   * record is an orphan.
   */
  lemma OrphanWhenIndexRejected(ns: NumberSyntax, sx: Syntax, s: Session, l: Ledger, d: Draft,
                                nowMs: nat, suffix: string, stampMs: nat)
    requires Coherent(sx)
    requires s.connected && s.hasSigner && Encrypt(ns, d.value).Success?
    requires s.approvals == 1 || StoredIds(sx, Read(l, IndexKey)).None?
    requires s.approvals >= 1
    ensures var out := Submit(ns, sx, s, l, d, nowMs, suffix, stampMs);
            && out.result == (if StoredIds(sx, Read(l, IndexKey)).Some? then Failure(UserRejected)
                              else Failure(IndexNotList))
            && (ObjectReadsBack(sx, NewRecordObject(Encrypt(ns, d.value).value, stampMs, s.address, d)) ==>
                  RecordAt(sx, out.ledger, RecordId(nowMs, suffix)).Some?)
            && Read(out.ledger, IndexKey) == Read(l, IndexKey)
            && ListedIds(sx, out.ledger) == ListedIds(sx, l)
  {
    var id := RecordId(nowMs, suffix);
    RecordKeyIsNotIndexKey(nowMs, suffix);
    var o := NewRecordObject(Encrypt(ns, d.value).value, stampMs, s.address, d);
    var ws := SubmitWrites(sx, l, id, o);
    assert Read(l[RecordKey(id) := ws[0].value], IndexKey) == Read(l, IndexKey);
    assert ws[..1] == [ws[0]];
    assert Apply(l, ws[..1]) == Apply(l[RecordKey(id) := ws[0].value], []);
    if |ws| == 1 {
      assert ws == ws[..1];
    }
    if ObjectReadsBack(sx, o) {
      BlobReadsBack(sx, l, id, o);
    }
  }
}
