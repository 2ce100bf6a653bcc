/**
 * The local recovery ledger (internal/gsbench/recovery_ledger.go:94-210, 331-349,
 * 443-457, 574-734): which updates it accepts, and what survives a crash of the
 * write-temporary, sync, rename, sync-directory protocol.
 */
module RecoveryLedger {
  import opened Common
  import opened Text
  import opened Sorting
  import opened Actions
  import opened CanonicalJson
  import opened JsonReader
  import Number = CanonicalNumber

  const MAX_ACTIONS: nat := 256

  datatype LedgerError =
    | RestoredIsReserved
    | InvalidAction
    | IdentityConflict
    | AlreadyRestored
    | StateRegression
    | DiagnosticConflict
    | TooManyActions
    | FileFailure

  type Entries = seq<Action>

  // ---- contents ----

  predicate SameIdentity(a: Action, runID: string, target: string) { a.runID == runID && a.target == target }

  // ---- payloads ----

  function PowerOfTwo(n: nat): int { if n == 0 then 1 else 2 * PowerOfTwo(n - 1) }

  /** From here on a number rounds to infinity in 64 bits. */
  function FloatBound(): int { PowerOfTwo(1024) - PowerOfTwo(970) }

  predicate FitsFloat(literal: string) {
    Number.MatchNumber(literal).Some? && -FloatBound() as real < Number.Value(literal) < FloatBound() as real
  }

  /** json.Unmarshal takes every number of the document. */
  predicate NumbersFit(j: Json) {
    match j
    case Num(literal) => FitsFloat(literal)
    case Arr(items) => forall i :: 0 <= i < |items| ==> NumbersFit(items[i])
    case Obj(fields) => forall k :: k in fields ==> NumbersFit(fields[k])
    case _ => true
  }

  predicate ValidPayload(payload: string, required: bool) {
    if payload == "" then !required
    else Decode(payload).Some? && Decode(payload).value.Obj? && NumbersFit(Decode(payload).value)
  }

  ghost function CanonicalPayload(payload: string): Option<string> {
    if payload == "" then Some("") else CanonicalBytes(payload)
  }

  lemma {:induction false} RespelledFits(j: Json)
    requires Accepted(j) && NumbersFit(j)
    ensures NumbersFit(Respelled(j))
  {
    hide Number.CanonicalText, Number.Value, Number.MatchNumber, FloatBound;
    match j
    case Num(literal) => Number.CanonicalKeepsValue(literal);
    case Arr(items) =>
      forall i | 0 <= i < |items| ensures NumbersFit(Respelled(items[i])) { RespelledFits(items[i]); }
    case Obj(fields) =>
      forall k | k in fields ensures NumbersFit(Respelled(fields[k])) { RespelledFits(fields[k]); }
    case _ =>
  }

  /** A payload whose canonical text can be read again. */
  ghost predicate Stays(payload: string)
    requires CanonicalPayload(payload).Some?
  {
    payload == "" || Stable(Decode(payload).value)
  }

  /** A canonical payload is valid again; read once more it is unchanged, or refused. */
  lemma CanonicalPayloadAgain(payload: string, required: bool)
    requires ValidPayload(payload, required) && CanonicalPayload(payload).Some?
    ensures var text := CanonicalPayload(payload).value;
            && ValidPayload(text, required)
            && CanonicalPayload(text) == if Stays(payload) then Some(text) else None
  {
    hide Print, Stable, Accepted, NumbersFit, Decode;
    if payload != "" {
      var j := Decode(payload).value;
      PrintNonempty(j);
      DecodePrinted(j);
      RespelledFits(j);
      CanonicalBytesAgain(payload);
    }
  }

  lemma PrintNonempty(j: Json)
    requires Accepted(j)
    ensures Print(j) != "" && (j.Obj? ==> Respelled(j).Obj?)
  {
    hide Print;
    FirstChar(j);
  }

  // ---- actions ----

  /** The checks on an action, without the credential patterns. */
  predicate ValidAction(a: Action) {
    && TrimSpace(a.runID) != "" && TrimSpace(a.target) != "" && TrimSpace(a.node) != ""
    && (forall c :: c in a.runID || c in a.target ==> !IsControl(c))
    && a.scenario != 0 && KnownProduct(a.product) && External(a.kind)
    && ValidPayload(a.forward, true) && ValidPayload(a.inverse, true)
    && ValidPayload(a.original, false) && ValidPayload(a.verify, false)
  }

  /** The action with canonical payloads; None when one of them has no canonical text. */
  ghost function CanonicalAction(a: Action): Option<Action> {
    var original, forward := CanonicalPayload(a.original), CanonicalPayload(a.forward);
    var inverse, verify := CanonicalPayload(a.inverse), CanonicalPayload(a.verify);
    if original.None? || forward.None? || inverse.None? || verify.None? then None
    else Some(a.(original := original.value, forward := forward.value, inverse := inverse.value, verify := verify.value))
  }

  /** The canonical form of the action is accepted when it is read again. */
  ghost predicate StaysReadable(a: Action)
    requires CanonicalAction(a).Some?
  {
    Stays(a.original) && Stays(a.forward) && Stays(a.inverse) && Stays(a.verify)
  }

  /** What the reader makes of a stored action is the action itself. */
  ghost predicate ReadsBack(a: Action) { CanonicalAction(a) == Some(a) }

  /** A valid action whose payloads are canonical texts: read again they are unchanged, or refused. */
  ghost predicate Storable(a: Action) {
    ValidAction(a) && (CanonicalAction(a).Some? ==> ReadsBack(a))
  }

  lemma CanonicalActionAgain(a: Action)
    requires ValidAction(a) && CanonicalAction(a).Some?
    ensures var stored := CanonicalAction(a).value;
            && Storable(stored) && SameIdentity(stored, a.runID, a.target)
            && stored.state == a.state && stored.lastError == a.lastError
            && (ReadsBack(stored) <==> StaysReadable(a))
  {
    hide ValidPayload, CanonicalPayload, Stays, TrimSpace;
    CanonicalPayloadAgain(a.original, false);
    CanonicalPayloadAgain(a.forward, true);
    CanonicalPayloadAgain(a.inverse, true);
    CanonicalPayloadAgain(a.verify, false);
  }

  /** State and diagnostic do not matter for it. */
  lemma StorableBody(a: Action, b: Action)
    requires Body(a) == Body(b)
    ensures Storable(a) <==> Storable(b)
    ensures ReadsBack(a) <==> ReadsBack(b)
  {
    hide ValidPayload, CanonicalPayload, TrimSpace;
    assert a == b.(state := a.state, lastError := a.lastError);
  }

  ghost predicate UniqueIdentities(file: Entries) {
    forall i, j :: 0 <= i < j < |file| ==> !SameIdentity(file[i], file[j].runID, file[j].target)
  }

  /** What is written to the file. */
  ghost predicate WellFormed(file: Entries) {
    && |file| <= MAX_ACTIONS
    && UniqueIdentities(file)
    && forall a :: a in file ==> Storable(a)
  }

  /** What can be read back from it. */
  ghost predicate Readable(file: Entries) { forall a :: a in file ==> ReadsBack(a) }

  /** sort.Slice's order: run, then newest sequence first, then target, then kind. */
  predicate EntryLe(a: Action, b: Action) {
    && StringLe(a.runID, b.runID)
    && (a.runID == b.runID ==>
          a.sequence > b.sequence
          || (a.sequence == b.sequence && StringLe(a.target, b.target)
              && (a.target == b.target ==> StringLe(a.kind, b.kind))))
  }

  lemma EntryOrder()
    ensures TotalPreorder(EntryLe)
  {
    forall a, b ensures EntryLe(a, b) || EntryLe(b, a) {
      StringLeTotal(a.runID, b.runID);
      StringLeTotal(a.target, b.target);
      StringLeTotal(a.kind, b.kind);
      StringLeReflexive(a.target);
    }
    forall a, b, c | EntryLe(a, b) && EntryLe(b, c) ensures EntryLe(a, c) {
      StringLeTransitive(a.runID, b.runID, c.runID);
      StringLeTransitive(a.target, b.target, c.target);
      StringLeTransitive(a.kind, b.kind, c.kind);
      StringLeAntisymmetric(a.runID, b.runID);
      StringLeAntisymmetric(a.target, b.target);
    }
  }

  function Ordered(file: Entries): Entries { Sort(EntryLe, file) }

  lemma OrderedKeeps(file: Entries)
    ensures multiset(Ordered(file)) == multiset(file) && |Ordered(file)| == |file|
    ensures forall a :: a in Ordered(file) <==> a in file
    ensures SortedBy(EntryLe, Ordered(file))
  {
    EntryOrder();
    SortCorrect(EntryLe, file);
  }

  /** Entries of different identities are never tied. */
  lemma UntiedEntries(file: Entries, sorted: Entries)
    requires UniqueIdentities(file) && forall a :: a in sorted <==> a in file
    ensures Untied(EntryLe, sorted)
  {
    forall a, b | a in sorted && b in sorted && EntryLe(a, b) && EntryLe(b, a) ensures a == b {
      StringLeAntisymmetric(a.runID, b.runID);
      StringLeAntisymmetric(a.target, b.target);
      assert a in file && b in file;
      var i :| 0 <= i < |file| && file[i] == a;
      var j :| 0 <= j < |file| && file[j] == b;
    }
  }

  lemma OrderedUnique(file: Entries, other: Entries)
    requires UniqueIdentities(file) && multiset(file) == multiset(other)
    ensures Ordered(file) == Ordered(other)
  {
    hide EntryLe, Ordered;
    OrderedKeeps(file);
    OrderedKeeps(other);
    UntiedEntries(file, Ordered(file));
    OneArrangement(EntryLe, Ordered(file), Ordered(other));
  }

  /** What every version on disk looks like: valid, without duplicates, in the one order. */
  ghost predicate Stored(file: Entries) { WellFormed(file) && Ordered(file) == file }

  lemma OrderedStored(file: Entries)
    requires WellFormed(file)
    ensures Stored(Ordered(file))
  {
    OrderedKeeps(file);
    PermutedUnique(file, Ordered(file));
    OrderedUnique(file, Ordered(file));
  }

  lemma PermutedUnique(file: Entries, other: Entries)
    requires UniqueIdentities(file) && multiset(file) == multiset(other)
    ensures UniqueIdentities(other)
  {
    var clash := (a: Action, b: Action) => SameIdentity(a, b.runID, b.target);
    ApartPermutes(clash, file, other);
    forall i, j | 0 <= i < j < |other| ensures !SameIdentity(other[i], other[j].runID, other[j].target) {
      assert !clash(other[i], other[j]);
    }
  }

  // ---- which updates are accepted ----

  predicate AllowedTransition(from: MutationState, to: MutationState) {
    from == to ||
    match from
    case Planned => to == Applied || to == Restoring || to == RestoreFailed
    case Applied => to == Restoring || to == RestoreFailed
    case Restoring => to == RestoreFailed
    case RestoreFailed => to == Restoring
    case Restored => false
  }

  function Find(file: Entries, runID: string, target: string): (i: nat)
    ensures i <= |file|
    ensures i < |file| ==> SameIdentity(file[i], runID, target)
  {
    if file == [] || SameIdentity(file[0], runID, target) then 0 else 1 + Find(file[1..], runID, target)
  }

  predicate DiagnosticClash(was: Action, now: Action) {
    was.state == now.state && was.lastError != "" && now.lastError != "" && now.lastError != was.lastError
  }

  /** The same-state rule: an existing diagnostic is kept. */
  function Updated(was: Action, now: Action): Action {
    was.(state := now.state,
         lastError := if was.state == now.state && was.lastError != "" then was.lastError else now.lastError)
  }

  /** The ledger after a Put of e with canonical payloads, or why it is refused. */
  function AcceptPut(file: Entries, e: Action): Result<Entries, LedgerError> {
    var i := Find(file, e.runID, e.target);
    if i == |file| then
      if |file| >= MAX_ACTIONS then Err(TooManyActions) else Ok(Ordered(file + [e]))
    else if Body(file[i]) != Body(e) then Err(IdentityConflict)
    else if !AllowedTransition(file[i].state, e.state) then
      Err(if file[i].state == Restored then AlreadyRestored else StateRegression)
    else if DiagnosticClash(file[i], e) then Err(DiagnosticConflict)
    else Ok(Ordered(file[i := Updated(file[i], e)]))
  }

  /** The ledger after MarkRestored, when there is anything to write. */
  function AcceptMark(file: Entries, runID: string, target: string): Option<Entries> {
    var i := Find(file, runID, target);
    if i == |file| || file[i].state == Restored then None
    else Some(Ordered(file[i := file[i].(state := Restored, lastError := "")]))
  }

  datatype Update = PutUpdate(action: Action) | MarkUpdate(runID: string, target: string)

  ghost function Commit(file: Entries, u: Update): Option<Entries> {
    match u
    case PutUpdate(e) =>
      if e.state == Restored || !ValidAction(e) || CanonicalAction(e).None? then None else
      (match AcceptPut(file, CanonicalAction(e).value) case Ok(next) => Some(next) case Err(_) => None)
    case MarkUpdate(runID, target) => AcceptMark(file, runID, target)
  }

  // ---- what one accepted update does ----

  function Rank(s: MutationState): nat {
    match s case Planned => 0 case Applied => 1 case Restoring => 2 case RestoreFailed => 2 case Restored => 3
  }

  /** `now` is `was` further along: same payload, no lower state, and a same-state diagnostic kept. */
  ghost predicate Advances(was: Action, now: Action) {
    && Body(was) == Body(now) && Rank(was.state) <= Rank(now.state)
    && (was.state == Restored ==> now == was)
    && (was.state == now.state && was.lastError != "" ==> now.lastError == was.lastError)
  }

  /** Every earlier entry is still there, possibly further along, and at most one entry is added. */
  ghost predicate Succeeds(was: Entries, now: Entries) {
    && |was| <= |now| <= |was| + 1
    && forall a :: a in was ==> exists b :: b in now && Advances(a, b)
  }

  lemma {:induction false} FindAbsent(file: Entries, runID: string, target: string)
    requires Find(file, runID, target) == |file|
    ensures forall a :: a in file ==> !SameIdentity(a, runID, target)
  {
    if file != [] {
      FindAbsent(file[1..], runID, target);
      assert file == [file[0]] + file[1..];
    }
  }

  /** Entries of every other identity are exactly the same ones. */
  ghost predicate OthersUntouched(was: Entries, now: Entries, runID: string, target: string) {
    forall a :: !SameIdentity(a, runID, target) ==> (a in was <==> a in now)
  }

  /** Replacing one entry by another of the same identity keeps the ledger well formed. */
  lemma ReplaceKeeps(file: Entries, i: nat, b: Action)
    requires WellFormed(file) && i < |file| && Advances(file[i], b)
    ensures Stored(Ordered(file[i := b])) && Succeeds(file, Ordered(file[i := b]))
    ensures b in Ordered(file[i := b])
    ensures OthersUntouched(file, Ordered(file[i := b]), b.runID, b.target)
  {
    hide Storable;
    var next := file[i := b];
    StorableBody(file[i], b);
    forall a | a in next ensures Storable(a) {
      var k :| 0 <= k < |next| && next[k] == a;
      if k != i { assert a == file[k]; }
    }
    OrderedStored(next);
    OrderedKeeps(next);
    assert next[i] == b;
    hide Ordered;
    forall a | a in file ensures exists c :: c in Ordered(next) && Advances(a, c) {
      var k :| 0 <= k < |file| && file[k] == a;
      if k == i { assert b in next; } else { assert next[k] == a && a in next; }
    }
    ReplaceOthers(file, i, b);
  }

  lemma ReplaceOthers(file: Entries, i: nat, b: Action)
    requires i < |file| && SameIdentity(file[i], b.runID, b.target)
    ensures OthersUntouched(file, file[i := b], b.runID, b.target)
  {
    var next := file[i := b];
    forall a | !SameIdentity(a, b.runID, b.target) ensures a in file <==> a in next {
      if a in file { var k :| 0 <= k < |file| && file[k] == a; assert k != i && next[k] == a; }
      if a in next { var k :| 0 <= k < |next| && next[k] == a; assert k != i && file[k] == a; }
    }
  }

  lemma AppendWellFormed(file: Entries, e: Action)
    requires WellFormed(file) && |file| < MAX_ACTIONS && Storable(e)
    requires Find(file, e.runID, e.target) == |file|
    ensures WellFormed(file + [e])
  {
    hide Storable, Find;
    FindAbsent(file, e.runID, e.target);
    assert forall i :: 0 <= i < |file| ==> file[i] in file;
  }

  lemma AppendKeeps(file: Entries, e: Action)
    requires WellFormed(file) && |file| < MAX_ACTIONS && Storable(e)
    requires Find(file, e.runID, e.target) == |file|
    ensures Stored(Ordered(file + [e])) && Succeeds(file, Ordered(file + [e]))
    ensures e in Ordered(file + [e])
    ensures OthersUntouched(file, Ordered(file + [e]), e.runID, e.target)
  {
    hide Storable, Find, WellFormed, Ordered, EntryLe;
    var next := file + [e];
    AppendWellFormed(file, e);
    OrderedStored(next);
    OrderedKeeps(next);
    forall a | a in file ensures exists c :: c in Ordered(next) && Advances(a, c) {
      assert a in next && Advances(a, a);
    }
  }

  /** An accepted update keeps the stored form, loses nothing, and records itself. */
  lemma CommitSucceeds(file: Entries, u: Update)
    requires WellFormed(file) && Commit(file, u).Some?
    ensures Stored(Commit(file, u).value) && Succeeds(file, Commit(file, u).value)
    ensures match u
            case PutUpdate(e) =>
              && OthersUntouched(file, Commit(file, u).value, e.runID, e.target)
              && exists b :: b in Commit(file, u).value && Body(b) == Body(CanonicalAction(e).value) && b.state == e.state
            case MarkUpdate(runID, target) =>
              && OthersUntouched(file, Commit(file, u).value, runID, target)
              && exists b :: b in Commit(file, u).value && SameIdentity(b, runID, target) && b.state == Restored
  {
    hide ValidAction, CanonicalAction, Storable;
    match u
    case PutUpdate(e) =>
      CanonicalActionAgain(e);
      var stored := CanonicalAction(e).value;
      var i := Find(file, stored.runID, stored.target);
      if i == |file| {
        AppendKeeps(file, stored);
      } else {
        assert Body(Updated(file[i], stored)) == Body(stored);
        ReplaceKeeps(file, i, Updated(file[i], stored));
      }
    case MarkUpdate(runID, target) =>
      var i := Find(file, runID, target);
      ReplaceKeeps(file, i, file[i].(state := Restored, lastError := ""));
  }

  // ---- runs of updates ----

  /** All updates in order; None when one of them is refused. */
  ghost function Replay(file: Entries, us: seq<Update>): Option<Entries>
    decreases |us|
  {
    if us == [] then Some(file) else
    match Commit(file, us[0])
    case None => None
    case Some(next) => Replay(next, us[1..])
  }

  /** `now` is `was` followed by accepted updates and nothing else. */
  ghost predicate Descends(was: Entries, now: Entries) { exists us :: Replay(was, us) == Some(now) }

  lemma DescendsReflexive(file: Entries)
    ensures Descends(file, file)
  {
    assert Replay(file, []) == Some(file);
  }

  lemma {:induction false} ReplayThen(file: Entries, us: seq<Update>, u: Update)
    requires Replay(file, us).Some?
    ensures Replay(file, us + [u]) == Commit(Replay(file, us).value, u)
    decreases |us|
  {
    hide Commit;
    if us == [] {
      assert us + [u] == [u] && [u][1..] == [];
    } else {
      assert (us + [u])[1..] == us[1..] + [u];
      ReplayThen(Commit(file, us[0]).value, us[1..], u);
    }
  }

  lemma DescendsThen(was: Entries, file: Entries, u: Update)
    requires Descends(was, file) && Commit(file, u).Some?
    ensures Descends(was, Commit(file, u).value)
  {
    var us :| Replay(was, us) == Some(file);
    ReplayThen(was, us, u);
  }

  /** Along any run of updates nothing is dropped, payloads stay, and states only advance. */
  ghost predicate Preserves(was: Entries, now: Entries) {
    forall a :: a in was ==>
      exists b :: b in now && Body(a) == Body(b) && Rank(a.state) <= Rank(b.state) && (a.state == Restored ==> b == a)
  }

  lemma SucceedsPreserves(was: Entries, mid: Entries, now: Entries)
    requires Succeeds(was, mid) && Preserves(mid, now)
    ensures Preserves(was, now)
  {
    forall a | a in was
      ensures exists c :: c in now && Body(a) == Body(c) && Rank(a.state) <= Rank(c.state) && (a.state == Restored ==> c == a)
    {
      var b :| b in mid && Advances(a, b);
      var c :| c in now && Body(b) == Body(c) && Rank(b.state) <= Rank(c.state) && (b.state == Restored ==> c == b);
    }
  }

  lemma {:induction false} ReplayPreserves(file: Entries, us: seq<Update>)
    requires Stored(file) && Replay(file, us).Some?
    ensures Stored(Replay(file, us).value) && Preserves(file, Replay(file, us).value)
    ensures |file| <= |Replay(file, us).value|
    decreases |us|
  {
    hide Commit;
    hide Ordered;
    if us != [] {
      CommitSucceeds(file, us[0]);
      var next := Commit(file, us[0]).value;
      ReplayPreserves(next, us[1..]);
      SucceedsPreserves(file, next, Replay(file, us).value);
    }
  }

  /**
   * The ledger laws over any run of accepted updates: it stays valid, within 256 entries
   * and free of duplicates; no entry is dropped, no payload changes, `restored` is final,
   * and no entry returns to `planned` or `applied` once it has left it.
   */
  lemma LedgerRun(was: Entries, now: Entries)
    requires Stored(was) && Descends(was, now)
    ensures Stored(now) && |was| <= |now| <= MAX_ACTIONS && Preserves(was, now)
  {
    var us :| Replay(was, us) == Some(now);
    ReplayPreserves(was, us);
  }

  /** Equal contents are stored in the same order, whatever the updates were. */
  lemma StoredOrderIsContent(file: Entries, other: Entries)
    requires Stored(file) && Stored(other) && multiset(file) == multiset(other)
    ensures file == other
  {
    OrderedUnique(file, other);
  }

  // ---- the file on disk ----

  /** What the ledger's name resolves to; a file renamed before it was synced may come back torn. */
  datatype Image = Missing | Complete(entries: Entries) | Torn

  datatype Temporary = NoTemporary | Written(entries: Entries, synced: bool)

  /**
   * `visible` is what readers see now and `synced` whether that file's data is on disk;
   * `survivors` are the images the name may resolve to after a crash.
   */
  datatype Disk = Disk(visible: Image, synced: bool, temporary: Temporary, survivors: set<Image>)

  /** Which of the system calls of one operation succeed. */
  datatype Io = Io(read: bool, fits: bool, write: bool, sync: bool, rename: bool, directory: bool)

  function AfterCrashOf(entries: Entries, synced: bool): set<Image> {
    if synced then {Complete(entries)} else {Complete(entries), Torn}
  }

  function WriteTemporary(d: Disk, entries: Entries): Disk { d.(temporary := Written(entries, false)) }

  function SyncTemporary(d: Disk): Disk
    requires d.temporary.Written?
  {
    d.(temporary := Written(d.temporary.entries, true))
  }

  function Unlink(d: Disk): Disk { d.(temporary := NoTemporary) }

  /** The directory entry is replaced at once, but which of the two survives a crash is open. */
  function Rename(d: Disk): Disk
    requires d.temporary.Written?
  {
    Disk(Complete(d.temporary.entries), d.temporary.synced, NoTemporary,
         d.survivors + AfterCrashOf(d.temporary.entries, d.temporary.synced))
  }

  function SyncDirectory(d: Disk): Disk {
    d.(survivors := if d.visible.Complete? then AfterCrashOf(d.visible.entries, d.synced) else {d.visible})
  }

  /** writeRecoveryLedger, call by call; a failed call ends it. */
  function Write(d: Disk, entries: Entries, io: Io): (Disk, bool) {
    if !io.fits || !io.write then (d, false)
    else if !io.sync then (Unlink(WriteTemporary(d, entries)), false)
    else
      var ready := SyncTemporary(WriteTemporary(d, entries));
      if !io.rename then (Unlink(ready), false)
      else if !io.directory then (Rename(ready), false)
      else (SyncDirectory(Rename(ready)), true)
  }

  /** All entries with canonical payloads. */
  ghost function CanonicalEntries(file: Entries): Option<Entries> {
    if file == [] then Some([]) else
    match CanonicalAction(file[|file| - 1])
    case None => None
    case Some(last) =>
      match CanonicalEntries(file[..|file| - 1])
      case None => None
      case Some(rest) => Some(rest + [last])
  }

  /** What readRecoveryLedger makes of the entries of a file. */
  ghost function Parse(file: Entries): Option<Entries> {
    if |file| <= MAX_ACTIONS && UniqueIdentities(file) && (forall a :: a in file ==> ValidAction(a))
       && CanonicalEntries(file).Some?
    then Some(Ordered(CanonicalEntries(file).value)) else None
  }

  ghost function Read(d: Disk, io: Io): Option<Entries> {
    if !io.read || d.visible.Torn? then None
    else if d.visible.Missing? then Some([])
    else Parse(d.visible.entries)
  }

  ghost function Put(d: Disk, e: Action, io: Io): (Disk, Option<LedgerError>) {
    if e.state == Restored then (d, Some(RestoredIsReserved))
    else if !ValidAction(e) then (d, Some(InvalidAction))
    else if CanonicalAction(e).None? then (d, Some(InvalidAction))
    else
      match Read(d, io)
      case None => (d, Some(FileFailure))
      case Some(file) =>
        match AcceptPut(file, CanonicalAction(e).value)
        case Err(error) => (d, Some(error))
        case Ok(next) =>
          var (after, ok) := Write(d, next, io);
          (after, if ok then None else Some(FileFailure))
  }

  predicate ValidIdentity(runID: string, target: string) {
    && TrimSpace(runID) != "" && TrimSpace(target) != ""
    && forall c :: c in runID || c in target ==> !IsControl(c)
  }

  ghost function MarkRestored(d: Disk, runID: string, target: string, io: Io): (Disk, Option<LedgerError>) {
    if !ValidIdentity(runID, target) then (d, Some(InvalidAction)) else
    match Read(d, io)
    case None => (d, Some(FileFailure))
    case Some(file) =>
      match AcceptMark(file, runID, target)
      case Some(next) =>
        var (after, ok) := Write(d, next, io);
        (after, if ok then None else Some(FileFailure))
      case None =>
        if io.directory then (SyncDirectory(d), None) else (d, Some(FileFailure))
  }

  // ---- durability ----

  /** A missing ledger is an empty one; a torn one has no readable contents. */
  function Contents(image: Image): Entries {
    match image case Complete(entries) => entries case _ => []
  }

  /** A complete version that is `base` followed by accepted updates. */
  ghost predicate Sound(base: Entries, image: Image) {
    !image.Torn? && Stored(Contents(image)) && Descends(base, Contents(image))
  }

  /** Neither what is seen now nor anything a crash may bring back loses any of `base`. */
  ghost predicate Durable(d: Disk, base: Entries) {
    && Sound(base, d.visible) && (d.visible.Complete? ==> d.synced)
    && forall image :: image in d.survivors ==> Sound(base, image)
  }

  datatype Event =
    | PutEvent(action: Action, io: Io)
    | MarkEvent(runID: string, target: string, io: Io)
    | Crash(image: Image)

  /** A crash brings back one of the survivors, and drops any temporary file. */
  ghost function Next(d: Disk, event: Event): (Disk, Option<LedgerError>) {
    match event
    case PutEvent(e, io) => Put(d, e, io)
    case MarkEvent(runID, target, io) => MarkRestored(d, runID, target, io)
    case Crash(image) =>
      (if image in d.survivors then Disk(image, true, NoTemporary, {image}) else d, None)
  }

  lemma NextSound(d: Disk, base: Entries, u: Update, next: Entries)
    requires Durable(d, base) && Commit(Contents(d.visible), u) == Some(next)
    ensures Sound(base, Complete(next)) && Sound(next, Complete(next))
  {
    hide Commit, Ordered, WellFormed, Descends, Succeeds;
    assert WellFormed(Contents(d.visible)) by { DurableComplete(d, base); }
    CommitSucceeds(Contents(d.visible), u);
    DescendsThen(base, Contents(d.visible), u);
    DescendsReflexive(next);
  }

  lemma WriteDurable(d: Disk, base: Entries, u: Update, next: Entries, io: Io)
    requires Durable(d, base) && Commit(Contents(d.visible), u) == Some(next)
    ensures Durable(Write(d, next, io).0, base)
    ensures Write(d, next, io).1 ==>
      Write(d, next, io).0.visible == Complete(next) && Durable(Write(d, next, io).0, next)
  {
    NextSound(d, base, u, next);
    hide Commit, Sound;
  }

  /** Canonical entries are what they were, or one of them is refused. */
  lemma {:induction false} CanonicalEntriesAgain(file: Entries)
    requires forall a :: a in file ==> Storable(a)
    ensures CanonicalEntries(file) == if Readable(file) then Some(file) else None
  {
    hide CanonicalAction, ValidAction;
    if file != [] {
      var rest, last := file[..|file| - 1], file[|file| - 1];
      assert file == rest + [last];
      CanonicalEntriesAgain(rest);
      assert Storable(last);
    }
  }

  /** A stored ledger reads back exactly as it was written, unless one of its entries is refused. */
  lemma ReadStored(d: Disk, base: Entries, io: Io)
    requires Durable(d, base)
    ensures Read(d, io) == if io.read && Readable(Contents(d.visible)) then Some(Contents(d.visible)) else None
  {
    hide CanonicalAction, ValidAction, Ordered, Descends;
    CanonicalEntriesAgain(Contents(d.visible));
    if d.visible.Missing? { assert Ordered([]) == []; }
  }

  lemma SyncDurable(d: Disk, base: Entries)
    requires Durable(d, base)
    ensures Durable(SyncDirectory(d), base)
    ensures Durable(SyncDirectory(d), Contents(d.visible))
  {
    DescendsReflexive(Contents(d.visible));
  }

  lemma PutKeepsDurable(d: Disk, base: Entries, e: Action, io: Io)
    requires Durable(d, base)
    ensures Durable(Put(d, e, io).0, base)
    ensures Put(d, e, io).1.None? ==>
      var now := Put(d, e, io).0;
      && Durable(now, Contents(now.visible))
      && Commit(Contents(d.visible), PutUpdate(e)) == Some(Contents(now.visible))
  {
    hide Durable, Write, AcceptPut, ValidAction;
    var file := Contents(d.visible);
    ReadStored(d, base, io);
    if io.read && Commit(file, PutUpdate(e)).Some? {
      WriteDurable(d, base, PutUpdate(e), Commit(file, PutUpdate(e)).value, io);
    }
  }

  lemma MarkKeepsDurable(d: Disk, base: Entries, runID: string, target: string, io: Io)
    requires Durable(d, base)
    ensures Durable(MarkRestored(d, runID, target, io).0, base)
    ensures MarkRestored(d, runID, target, io).1.None? ==>
      var now := MarkRestored(d, runID, target, io).0;
      && Durable(now, Contents(now.visible))
      && Contents(now.visible) == (match Commit(Contents(d.visible), MarkUpdate(runID, target))
                                   case Some(next) => next
                                   case None => Contents(d.visible))
  {
    hide Durable, Write, AcceptMark, ValidIdentity;
    var file := Contents(d.visible);
    ReadStored(d, base, io);
    if io.read {
      match AcceptMark(file, runID, target)
      case Some(next) => WriteDurable(d, base, MarkUpdate(runID, target), next, io);
      case None => SyncDurable(d, base);
    }
  }

  /** No call, failed call or crash loses what was durable before it. */
  lemma EventKeepsDurable(d: Disk, base: Entries, event: Event)
    requires Durable(d, base)
    ensures Durable(Next(d, event).0, base)
    ensures !event.Crash? && Next(d, event).1.None? ==>
      Durable(Next(d, event).0, Contents(Next(d, event).0.visible))
  {
    hide Put, MarkRestored;
    match event
    case PutEvent(e, io) => PutKeepsDurable(d, base, e, io);
    case MarkEvent(runID, target, io) => MarkKeepsDurable(d, base, runID, target, io);
    case Crash(image) =>
  }

  ghost function Run(d: Disk, events: seq<Event>): Disk
    decreases |events|
  {
    if events == [] then d else Run(Next(d, events[0]).0, events[1..])
  }

  lemma {:induction false} RunKeepsDurable(d: Disk, base: Entries, events: seq<Event>)
    requires Durable(d, base)
    ensures Durable(Run(d, events), base)
    decreases |events|
  {
    hide Durable, Next;
    if events != [] {
      EventKeepsDurable(d, base, events[0]);
      RunKeepsDurable(Next(d, events[0]).0, base, events[1..]);
    }
  }

  const EMPTY: Disk := Disk(Missing, false, NoTemporary, {Missing})

  lemma EmptyDurable()
    ensures Durable(EMPTY, [])
  {
    DescendsReflexive([]);
    assert Ordered([]) == [];
  }

  /**
   * Durability. After any run of puts, marks, failed system calls and crashes, what is
   * visible and whatever a further crash may bring back is a complete version that some
   * write produced. Once a call has returned success, every later version is the one it
   * left followed by accepted updates: no later crash undoes it.
   */
  lemma Durability(before: seq<Event>, event: Event, after: seq<Event>)
    requires !event.Crash? && Next(Run(EMPTY, before), event).1.None?
    ensures var done := Next(Run(EMPTY, before), event).0;
            var later := Run(done, after);
            && Durable(done, []) && !done.visible.Torn?
            && Durable(later, Contents(done.visible))
  {
    hide Durable, Next, Run;
    EmptyDurable();
    RunKeepsDurable(EMPTY, [], before);
    var d := Run(EMPTY, before);
    EventKeepsDurable(d, [], event);
    var done := Next(d, event).0;
    assert !done.visible.Torn? by { DurableComplete(done, []); }
    RunKeepsDurable(done, Contents(done.visible), after);
  }

  lemma DurableComplete(d: Disk, base: Entries)
    requires Durable(d, base)
    ensures !d.visible.Torn? && WellFormed(Contents(d.visible))
  {
  }

  /**
   * In particular an acknowledged entry survives: after a Put that returned success, every
   * version seen after any later calls and crashes holds its payload at no lower state.
   */
  lemma AcknowledgedPutSurvives(before: seq<Event>, e: Action, io: Io, after: seq<Event>)
    requires Put(Run(EMPTY, before), e, io).1.None?
    ensures var later := Run(Put(Run(EMPTY, before), e, io).0, after);
            && !later.visible.Torn? && CanonicalAction(e).Some?
            && exists b :: b in Contents(later.visible)
                           && Body(b) == Body(CanonicalAction(e).value) && Rank(e.state) <= Rank(b.state)
  {
    hide Durable, Put, Run, Commit;
    EmptyDurable();
    RunKeepsDurable(EMPTY, [], before);
    var d := Run(EMPTY, before);
    PutKeepsDurable(d, [], e, io);
    var done := Put(d, e, io).0;
    RunKeepsDurable(done, Contents(done.visible), after);
    VersionsPreserve(d, [], PutUpdate(e), done, Run(done, after));
    var b :| b in Contents(done.visible) && Body(b) == Body(CanonicalAction(e).value) && b.state == e.state;
    assert exists c :: c in Contents(Run(done, after).visible) && Body(b) == Body(c) && Rank(b.state) <= Rank(c.state);
  }

  /** The entry of the identity is restored. */
  ghost predicate MarkedIn(file: Entries, runID: string, target: string) {
    exists b :: b in file && SameIdentity(b, runID, target) && b.state == Restored
  }

  /**
   * The same for a MarkRestored that returned success, the retry that only syncs the directory included:
   * whatever crashes follow, every later version holds all entries it left, and if there was an entry of
   * that identity, it is there as restored.
   */
  lemma AcknowledgedMarkSurvives(before: seq<Event>, runID: string, target: string, io: Io, after: seq<Event>)
    requires MarkRestored(Run(EMPTY, before), runID, target, io).1.None?
    ensures var was := Contents(Run(EMPTY, before).visible);
            var done := MarkRestored(Run(EMPTY, before), runID, target, io).0;
            var later := Run(done, after);
            && !later.visible.Torn? && Preserves(Contents(done.visible), Contents(later.visible))
            && ((exists a :: a in was && SameIdentity(a, runID, target)) ==> MarkedIn(Contents(later.visible), runID, target))
  {
    hide Durable, MarkRestored, Run, Commit, Contents;
    EmptyDurable();
    RunKeepsDurable(EMPTY, [], before);
    var d := Run(EMPTY, before);
    MarkKeepsDurable(d, [], runID, target, io);
    var done := MarkRestored(d, runID, target, io).0;
    var later := Run(done, after);
    RunKeepsDurable(done, Contents(done.visible), after);
    DurablePreserves(done, [], later);
    DurableComplete(d, []);
    DurableComplete(later, Contents(done.visible));
    if exists a :: a in Contents(d.visible) && SameIdentity(a, runID, target) {
      MarkMarks(Contents(d.visible), runID, target);
      MarkStays(Contents(done.visible), Contents(later.visible), runID, target);
    }
  }

  /** After the call the entry is restored, whether there was anything to write or not. */
  lemma MarkMarks(file: Entries, runID: string, target: string)
    requires WellFormed(file) && exists a :: a in file && SameIdentity(a, runID, target)
    ensures var u := MarkUpdate(runID, target);
            MarkedIn(match Commit(file, u) case Some(next) => next case None => file, runID, target)
  {
    var u := MarkUpdate(runID, target);
    if Commit(file, u).Some? {
      CommitSucceeds(file, u);
    } else {
      var i := Find(file, runID, target);
      if i == |file| { FindAbsent(file, runID, target); }
      assert file[i] in file;
    }
  }

  lemma MarkStays(was: Entries, now: Entries, runID: string, target: string)
    requires Preserves(was, now) && MarkedIn(was, runID, target)
    ensures MarkedIn(now, runID, target)
  {
    var a :| a in was && SameIdentity(a, runID, target) && a.state == Restored;
    var b :| b in now && Body(a) == Body(b) && (a.state == Restored ==> b == a);
  }

  lemma VersionsPreserve(d: Disk, base: Entries, u: Update, done: Disk, later: Disk)
    requires Durable(d, base) && Durable(done, base)
    requires Commit(Contents(d.visible), u) == Some(Contents(done.visible))
    requires Durable(later, Contents(done.visible))
    ensures Preserves(Contents(done.visible), Contents(later.visible))
    ensures u.PutUpdate? ==>
      && CanonicalAction(u.action).Some?
      && exists b :: b in Contents(done.visible)
                     && Body(b) == Body(CanonicalAction(u.action).value) && b.state == u.action.state
  {
    assert u.PutUpdate? ==> CanonicalAction(u.action).Some?;
    hide Commit;
    CommitSucceeds(Contents(d.visible), u);
    LedgerRun(Contents(done.visible), Contents(later.visible));
  }

  // ---- what was written can be read, or not ----

  /** An update leaves the ledger readable exactly when it was and the action it brings stays readable. */
  lemma CommitReadable(file: Entries, u: Update)
    requires WellFormed(file) && Commit(file, u).Some?
    ensures u.PutUpdate? ==> CanonicalAction(u.action).Some?
    ensures Readable(Commit(file, u).value) <==> Readable(file) && (u.PutUpdate? ==> StaysReadable(u.action))
  {
    hide ValidAction, CanonicalAction, StaysReadable, ReadsBack, Stays;
    CommitSucceeds(file, u);
    var next := Commit(file, u).value;
    match u
    case PutUpdate(e) =>
      CanonicalActionAgain(e);
      hide Commit;
      ReadableAlike(file, next, e.runID, e.target, CanonicalAction(e).value);
    case MarkUpdate(runID, target) =>
      var i := Find(file, runID, target);
      assert file[i] in file;
      hide Commit;
      ReadableAlike(file, next, runID, target, file[i]);
  }

  /** Two ledgers that differ in one entry are readable alike, up to that entry's payloads. */
  lemma ReadableAlike(file: Entries, next: Entries, runID: string, target: string, stored: Action)
    requires OthersUntouched(file, next, runID, target)
    requires forall a :: a in file && SameIdentity(a, runID, target) ==> Body(a) == Body(stored)
    requires forall b :: b in next && SameIdentity(b, runID, target) ==> Body(b) == Body(stored)
    requires exists b :: b in next && SameIdentity(b, runID, target)
    ensures Readable(next) <==> Readable(file) && ReadsBack(stored)
  {
    hide ReadsBack;
    forall a | a in file ensures Readable(next) ==> ReadsBack(a) {
      if SameIdentity(a, runID, target) {
        var b :| b in next && SameIdentity(b, runID, target);
        StorableBody(a, stored);
        StorableBody(b, stored);
      }
    }
    forall b | b in next && SameIdentity(b, runID, target) ensures ReadsBack(b) <==> ReadsBack(stored) {
      StorableBody(b, stored);
    }
    forall b | b in next ensures Readable(file) && ReadsBack(stored) ==> ReadsBack(b) {
      if SameIdentity(b, runID, target) { StorableBody(b, stored); } else { assert b in file; }
    }
  }

  /** No call gets past an entry that is refused. */
  lemma UnreadableRefuses(d: Disk, base: Entries, event: Event)
    requires Durable(d, base) && !Readable(Contents(d.visible)) && !event.Crash?
    ensures Next(d, event).0 == d && Next(d, event).1.Some?
  {
    match event
    case PutEvent(e, io) => ReadStored(d, base, io);
    case MarkEvent(runID, target, io) => ReadStored(d, base, io);
  }

  /** Payloads never change, so an entry that is refused once is refused in every later version. */
  lemma UnreadableStays(was: Entries, now: Entries)
    requires Preserves(was, now) && !Readable(was)
    ensures !Readable(now)
  {
    hide ReadsBack;
    var a :| a in was && !ReadsBack(a);
    var b :| b in now && Body(a) == Body(b);
    StorableBody(a, b);
  }

  /** After an acknowledged Put the ledger can be read exactly when the action stays readable. */
  lemma ReadableAfterPut(before: seq<Event>, e: Action, io: Io)
    requires Put(Run(EMPTY, before), e, io).1.None?
    ensures CanonicalAction(e).Some?
    ensures Readable(Contents(Put(Run(EMPTY, before), e, io).0.visible)) <==> StaysReadable(e)
  {
    hide Durable, Run, Write, AcceptPut, ValidAction, CanonicalAction, StaysReadable, Readable, Parse;
    EmptyDurable();
    RunKeepsDurable(EMPTY, [], before);
    var d := Run(EMPTY, before);
    ReadStored(d, [], io);
    PutKeepsDurable(d, [], e, io);
    DurableComplete(d, []);
    CommitReadable(Contents(d.visible), PutUpdate(e));
  }

  /**
   * The write path takes numbers that the read path refuses: once such an action has been
   * acknowledged, no later call or crash makes the ledger usable again, and every call fails.
   */
  lemma SpoiledForever(before: seq<Event>, e: Action, io: Io, after: seq<Event>, event: Event)
    requires Put(Run(EMPTY, before), e, io).1.None? && CanonicalAction(e).Some? && !StaysReadable(e)
    requires !event.Crash?
    ensures var later := Run(Put(Run(EMPTY, before), e, io).0, after);
            !Readable(Contents(later.visible)) && Next(later, event).0 == later && Next(later, event).1.Some?
  {
    hide Durable, Run, Put, Next, CanonicalAction, StaysReadable, Readable;
    ReadableAfterPut(before, e, io);
    EmptyDurable();
    RunKeepsDurable(EMPTY, [], before);
    var d := Run(EMPTY, before);
    PutKeepsDurable(d, [], e, io);
    var done := Put(d, e, io).0;
    var later := Run(done, after);
    RunKeepsDurable(done, Contents(done.visible), after);
    DurablePreserves(done, [], later);
    UnreadableStays(Contents(done.visible), Contents(later.visible));
    UnreadableRefuses(later, Contents(done.visible), event);
  }

  lemma DurablePreserves(done: Disk, base: Entries, later: Disk)
    requires Durable(done, base) && Durable(later, Contents(done.visible))
    ensures Preserves(Contents(done.visible), Contents(later.visible))
  {
    LedgerRun(Contents(done.visible), Contents(later.visible));
  }

  lemma {:induction false} PowerGrows(m: nat, n: nat)
    requires m < n
    ensures PowerOfTwo(n) >= 2 * PowerOfTwo(m) >= 2
    decreases n
  {
    if m + 1 < n { PowerGrows(m, n - 1); } else if m > 0 { PowerGrows(m - 1, m); }
  }

  lemma BoundAboveOne()
    ensures FloatBound() > 1
  {
    hide PowerOfTwo;
    PowerGrows(970, 1024);
    PowerGrows(0, 970);
  }

  /** A number of at most one passes every check on the way in. */
  lemma SmallFits(literal: string)
    requires Number.MatchNumber(literal).Some? && 0.0 <= Number.Value(literal) <= 1.0
    ensures FitsFloat(literal)
  {
    hide Number.MatchNumber, Number.Value, FloatBound;
    BoundAboveOne();
  }

  lemma SampleChars()
    ensures NumberChars("0.1e" + FormatInt(Number.MIN_INT32))
  {
    assert NumberChars("0.1e") by {
      assert "0.1e"[..3] == "0.1" && "0.1"[..2] == "0." && "0."[..1] == "0" && "0"[..0] == "";
    }
    FormatIntChars(Number.MIN_INT32);
    NumberCharsConcat("0.1e", FormatInt(Number.MIN_INT32));
  }

  /** The literal that every check on the way in lets pass, and the reader refuses once it is respelled. */
  lemma RefusedNumber() returns (literal: string)
    ensures literal != "" && NumberChars(literal) && Number.Accepted(literal) && FitsFloat(literal)
    ensures !Stable(Num(literal))
  {
    hide Number.Canonical, Number.CanonicalText, Number.IsZero, Number.FitsInt32, Number.Value, FitsFloat;
    literal := Number.OutputRefused();
    SampleChars();
    hide NumberChars, FormatInt, Number.MatchNumber;
    SmallFits(literal);
  }

  const ALL_CALLS_SUCCEED: Io := Io(true, true, true, true, true, true)

  function SampleAction(payload: string): Action {
    Action(1, "r", 1, NETWORK_QDISC, "openGauss", "t", "n", "", payload, payload, "", Planned, "")
  }

  /** An action that an empty ledger acknowledges although it can never be read again. */
  lemma SpoilingAction() returns (e: Action)
    ensures Put(EMPTY, e, ALL_CALLS_SUCCEED).1.None? && CanonicalAction(e).Some? && !StaysReadable(e)
  {
    hide *;
    var literal := RefusedNumber();
    WrappedPayload(literal);
    e := SampleAction(Wrapped(literal));
    SampleValid(Wrapped(literal));
    PutFirst(e);
  }

  lemma SampleValid(payload: string)
    requires ValidPayload(payload, true) && CanonicalPayload(payload).Some? && !Stays(payload)
    ensures var e := SampleAction(payload);
            && ValidAction(e) && e.state == Planned && CanonicalAction(e).Some? && !StaysReadable(e)
  {
    assert ValidPayload("", false) && CanonicalPayload("") == Some("") by { EmptyPayload(); }
    hide ValidPayload, CanonicalPayload, Stays;
  }

  lemma PutFirst(e: Action)
    requires ValidAction(e) && e.state != Restored && CanonicalAction(e).Some?
    ensures Put(EMPTY, e, ALL_CALLS_SUCCEED).1.None?
  {
    hide ValidAction, CanonicalAction, Ordered;
  }

  lemma EmptyPayload()
    ensures ValidPayload("", false) && CanonicalPayload("") == Some("")
  {
  }

  lemma WrappedPayload(literal: string)
    requires literal != "" && NumberChars(literal) && Number.Accepted(literal) && FitsFloat(literal)
    requires !Stable(Num(literal))
    ensures var payload := Wrapped(literal);
            ValidPayload(payload, true) && CanonicalPayload(payload).Some? && !Stays(payload)
  {
    DecodeWrapped(literal);
    assert Wrapped(literal) != "";
    hide Number.Accepted, FitsFloat, Print, Decode, Wrapped;
    var fields := map["a" := Num(literal)];
    assert "a" in fields && forall k :: k in fields ==> fields[k] == Num(literal);
    assert Accepted(Num(literal)) && NumbersFit(Num(literal));
    assert Accepted(Obj(fields)) && NumbersFit(Obj(fields)) && !Stable(fields["a"]);
  }

  /** What is visible and whatever a crash may bring back can be read. */
  ghost predicate AllReadable(d: Disk) {
    Readable(Contents(d.visible)) && forall image :: image in d.survivors ==> Readable(Contents(image))
  }

  /** The call brings no action that stops being readable. */
  ghost predicate Harmless(event: Event) {
    event.PutEvent? && CanonicalAction(event.action).Some? ==> StaysReadable(event.action)
  }

  lemma WriteReadable(d: Disk, next: Entries, io: Io)
    requires AllReadable(d) && Readable(next)
    ensures AllReadable(Write(d, next, io).0)
  {
    hide Readable;
    assert Readable([]) by { EmptyReadable(); }
  }

  lemma EmptyReadable()
    ensures Readable([])
  {
  }

  lemma HarmlessStep(d: Disk, base: Entries, event: Event)
    requires Durable(d, base) && AllReadable(d) && Harmless(event)
    ensures AllReadable(Next(d, event).0)
  {
    hide Durable, Write, AcceptPut, AcceptMark, ValidAction, CanonicalAction, StaysReadable, Readable, Parse;
    DurableComplete(d, base);
    match event
    case PutEvent(e, io) =>
      ReadStored(d, base, io);
      var u := PutUpdate(e);
      if Commit(Contents(d.visible), u).Some? {
        CommitReadable(Contents(d.visible), u);
        WriteReadable(d, Commit(Contents(d.visible), u).value, io);
      }
    case MarkEvent(runID, target, io) =>
      ReadStored(d, base, io);
      var u := MarkUpdate(runID, target);
      if Commit(Contents(d.visible), u).Some? {
        CommitReadable(Contents(d.visible), u);
        WriteReadable(d, Commit(Contents(d.visible), u).value, io);
      }
      assert AllReadable(SyncDirectory(d)) by { EmptyReadable(); }
    case Crash(image) =>
  }

  /** A ledger that is only ever given actions that stay readable can always be read. */
  lemma {:induction false} ReadableForever(d: Disk, base: Entries, events: seq<Event>)
    requires Durable(d, base) && AllReadable(d) && forall event :: event in events ==> Harmless(event)
    ensures AllReadable(Run(d, events))
    decreases |events|
  {
    hide Durable, AllReadable, Harmless, Next;
    if events != [] {
      HarmlessStep(d, base, events[0]);
      EventKeepsDurable(d, base, events[0]);
      ReadableForever(Next(d, events[0]).0, base, events[1..]);
    }
  }

  // ---- the source's ledger ----

  predicate IdentityIn(a: Action, id: (string, string)) { a.runID == id.0 && a.target == id.1 }

  lemma {:induction false} CanonicalPrefix(file: Entries, n: nat)
    requires n <= |file| && CanonicalEntries(file[..n]).None?
    ensures CanonicalEntries(file).None?
    decreases |file|
  {
    if n < |file| {
      hide CanonicalAction;
      assert file != [];
      assert file[..|file| - 1][..n] == file[..n];
      CanonicalPrefix(file[..|file| - 1], n);
    } else {
      assert file[..n] == file;
    }
  }

  /** One ledger file; `io` says which system calls of an operation succeed. */
  class FileRecoveryLedger {
    var disk: Disk

    constructor ()
      ensures disk == EMPTY
    {
      disk := EMPTY;
    }

    /** The first entry of an identity, or the length. */
    method FindEntry(file: Entries, runID: string, target: string) returns (index: nat)
      ensures index == Find(file, runID, target)
    {
      index := 0;
      while index < |file|
        invariant index <= |file|
        invariant Find(file, runID, target) == index + Find(file[index..], runID, target)
      {
        if SameIdentity(file[index], runID, target) { return; }
        assert file[index..][1..] == file[index + 1..];
        index := index + 1;
      }
    }

    method CanonicalRecoveryLedgerAction(a: Action) returns (r: Option<Action>)
      ensures r == CanonicalAction(a)
    {
      hide CanonicalBytes;
      var original := CanonicalOrEmpty(a.original);
      if original.None? { return None; }
      var forward := CanonicalOrEmpty(a.forward);
      if forward.None? { return None; }
      var inverse := CanonicalOrEmpty(a.inverse);
      if inverse.None? { return None; }
      var verify := CanonicalOrEmpty(a.verify);
      if verify.None? { return None; }
      r := Some(a.(original := original.value, forward := forward.value, inverse := inverse.value, verify := verify.value));
    }

    method CanonicalOrEmpty(payload: string) returns (r: Option<string>)
      ensures r == CanonicalPayload(payload)
    {
      hide CanonicalBytes;
      if payload == "" { return Some(""); }
      var text := CanonicalRecoveryJson(payload);
      r := if text.Ok? then Some(text.value) else None;
    }

    /** Checks and respells the entries one by one; a repeated identity spoils the file. */
    method ReadRecoveryLedger(entries: Entries) returns (file: Option<Entries>)
      ensures file == Parse(entries)
    {
      hide ValidAction, CanonicalAction, Ordered;
      if |entries| > MAX_ACTIONS { return None; }
      var identities: set<(string, string)> := {};
      var canonical: Entries := [];
      for index := 0 to |entries|
        invariant forall id :: id in identities <==> exists k :: 0 <= k < index && IdentityIn(entries[k], id)
        invariant UniqueIdentities(entries[..index])
        invariant forall a :: a in entries[..index] ==> ValidAction(a)
        invariant CanonicalEntries(entries[..index]) == Some(canonical)
      {
        var action := entries[index];
        assert entries[..index + 1] == entries[..index] + [action];
        assert entries[..index + 1][..index] == entries[..index];
        if !ValidAction(action) {
          assert action in entries;
          return None;
        }
        var stored := CanonicalRecoveryLedgerAction(action);
        if stored.None? {
          CanonicalPrefix(entries, index + 1);
          return None;
        }
        var identity := (action.runID, action.target);
        if identity in identities {
          ghost var k :| 0 <= k < index && IdentityIn(entries[k], identity);
          assert SameIdentity(entries[k], action.runID, action.target);
          return None;
        }
        canonical := canonical + [stored.value];
        assert IdentityIn(entries[index], identity);
        identities := identities + {identity};
      }
      assert entries[..|entries|] == entries;
      file := Some(Ordered(canonical));
    }

    method WriteRecoveryLedger(entries: Entries, io: Io) returns (ok: bool)
      modifies this
      ensures (disk, ok) == Write(old(disk), entries, io)
    {
      if !io.fits { return false; }
      if !io.write { return false; }
      disk := WriteTemporary(disk, entries);
      if !io.sync { disk := Unlink(disk); return false; }
      disk := SyncTemporary(disk);
      if !io.rename { disk := Unlink(disk); return false; }
      disk := Rename(disk);
      if !io.directory { return false; }
      disk := SyncDirectory(disk);
      ok := true;
    }

    method ReadFile(io: Io) returns (file: Option<Entries>)
      ensures file == Read(disk, io)
    {
      hide Parse;
      if !io.read { return None; }
      match disk.visible
      case Missing => file := Some([]);
      case Torn => file := None;
      case Complete(entries) => file := ReadRecoveryLedger(entries);
    }

    method PutAction(e: Action, io: Io) returns (error: Option<LedgerError>)
      requires Durable(disk, [])
      modifies this
      ensures (disk, error) == Put(old(disk), e, io)
      ensures Durable(disk, [])
    {
      hide Durable, Write, Ordered, ValidAction, CanonicalAction, Parse;
      PutKeepsDurable(disk, [], e, io);
      if e.state == Restored { return Some(RestoredIsReserved); }
      if !ValidAction(e) { return Some(InvalidAction); }
      var canonical := CanonicalRecoveryLedgerAction(e);
      if canonical.None? { return Some(InvalidAction); }
      var stored := canonical.value;
      var read := ReadFile(io);
      if read.None? { return Some(FileFailure); }
      var file := read.value;
      var index := FindEntry(file, stored.runID, stored.target);
      if index < |file| {
        var existing := file[index];
        if Body(existing) != Body(stored) { return Some(IdentityConflict); }
        if !AllowedTransition(existing.state, stored.state) {
          return Some(if existing.state == Restored then AlreadyRestored else StateRegression);
        }
        var lastError := stored.lastError;
        if existing.state == stored.state && existing.lastError != "" {
          if lastError == "" {
            lastError := existing.lastError;
          } else if lastError != existing.lastError {
            return Some(DiagnosticConflict);
          }
        }
        var next := file[index := existing.(state := stored.state, lastError := lastError)];
        var ok := WriteRecoveryLedger(Ordered(next), io);
        error := if ok then None else Some(FileFailure);
      } else {
        if |file| >= MAX_ACTIONS { return Some(TooManyActions); }
        var ok := WriteRecoveryLedger(Ordered(file + [stored]), io);
        error := if ok then None else Some(FileFailure);
      }
    }

    method MarkActionRestored(runID: string, target: string, io: Io) returns (error: Option<LedgerError>)
      requires Durable(disk, [])
      modifies this
      ensures (disk, error) == MarkRestored(old(disk), runID, target, io)
      ensures Durable(disk, [])
    {
      hide Durable, Write, Ordered, ValidIdentity, Parse;
      MarkKeepsDurable(disk, [], runID, target, io);
      if !ValidIdentity(runID, target) { return Some(InvalidAction); }
      var read := ReadFile(io);
      if read.None? { return Some(FileFailure); }
      var file := read.value;
      var index := FindEntry(file, runID, target);
      if index < |file| && file[index].state != Restored {
        var next := file[index := file[index].(state := Restored, lastError := "")];
        var ok := WriteRecoveryLedger(Ordered(next), io);
        error := if ok then None else Some(FileFailure);
      } else if io.directory {
        disk := SyncDirectory(disk);
        error := None;
      } else {
        error := Some(FileFailure);
      }
    }
  }
}
