/** The boot-time migration bridge: which revision is stamped, and what is healed, before `alembic upgrade head`. */
module MigrationStamp {
  import opened SchemaHeal

  /** The alembic_version table: missing, or holding a revision ("" when it has no row). */
  datatype Version = NoTable | Revision(id: string)

  datatype Database = Database(schema: Schema, version: Version)

  const BASELINE_V37 := "baseline_v37"
  const FRESH_INSTALL_STAMP_REVISION := "ce_0077_sequence_run_reviewed_project_ids"

  const KNOWN_LEGACY_REVISIONS := {
    "baseline_v33", "baseline_v34", "baseline_v35", "baseline_v36", "0855a_setup_state", "0904_auto_checkin",
    "0950b_exec_status", "0960_checkin_min", "0435b_closed_status", "0435d_requires_action", "bee938301ffa"}

  lemma StampsAreNotLegacy()
    ensures BASELINE_V37 !in KNOWN_LEGACY_REVISIONS && FRESH_INSTALL_STAMP_REVISION !in KNOWN_LEGACY_REVISIONS
    ensures "" !in KNOWN_LEGACY_REVISIONS && BASELINE_V37 != FRESH_INSTALL_STAMP_REVISION
  {
  }

  /** Revisions the bridge heals: none recorded, the v37 baseline itself, and the legacy ones. */
  predicate Bridged(id: string) {
    id == "" || id == BASELINE_V37 || id in KNOWN_LEGACY_REVISIONS
  }

  ghost function Stamp(db: Database): Database {
    match db.version
    case NoTable => db.(version := Revision(FRESH_INSTALL_STAMP_REVISION))
    case Revision(id) =>
      if id == "" || id == BASELINE_V37 then db.(schema := Heal(db.schema))
      else if id in KNOWN_LEGACY_REVISIONS then Database(Heal(db.schema), Revision(BASELINE_V37))
      else db
  }

  /**
   The recorded revision moves in two cases only: a fresh database gets the squash boundary, a legacy
   revision gets v37.
   */
  lemma RevisionMovesIff(db: Database)
    ensures Stamp(db).version != db.version <==> db.version.NoTable? || db.version.id in KNOWN_LEGACY_REVISIONS
    ensures db.version.NoTable? ==>
      Stamp(db) == Database(db.schema, Revision("ce_0077_sequence_run_reviewed_project_ids"))
    ensures db.version.Revision? && db.version.id in KNOWN_LEGACY_REVISIONS ==>
      Stamp(db).version == Revision("baseline_v37")
  {
  }

  /** The eleven legacy revisions, and exactly when the step heals: on them, on v37 itself and when none is recorded. */
  lemma HealsIff(db: Database)
    ensures forall id :: id in KNOWN_LEGACY_REVISIONS <==>
              || id == "baseline_v33" || id == "baseline_v34" || id == "baseline_v35" || id == "baseline_v36"
              || id == "0855a_setup_state" || id == "0904_auto_checkin" || id == "0950b_exec_status"
              || id == "0960_checkin_min" || id == "0435b_closed_status" || id == "0435d_requires_action"
              || id == "bee938301ffa"
    ensures Stamp(db).schema ==
            if db.version.Revision? && (db.version.id == "" || db.version.id == "baseline_v37"
                                        || db.version.id in KNOWN_LEGACY_REVISIONS)
            then Heal(db.schema) else db.schema
  {
  }

  /**
   A revision of this build's chain never moves, backwards or otherwise, given the squash removed the legacy
   ones from it.
   */
  lemma ChainRevisionsStay(db: Database, chain: set<string>)
    requires chain !! KNOWN_LEGACY_REVISIONS && db.version.Revision? && db.version.id in chain
    ensures Stamp(db).version == db.version
  {
  }

  /** A revision this build does not know leaves the whole database as it was. */
  lemma UnknownRevisionsUntouched(db: Database)
    requires db.version.Revision? && !Bridged(db.version.id)
    ensures Stamp(db) == db
  {
  }

  /**
   Running the step at every boot does no more than running it once, whatever was recorded, unless the heal
   leaves work.
   */
  lemma StampTwiceIsOnceIff(db: Database)
    ensures Stamp(Stamp(db)) == Stamp(db) <==>
      !(db.version.Revision? && Bridged(db.version.id) && LeavesWork(db.schema))
  {
    StampsAreNotLegacy();
    HealIsIdempotentIff(db.schema);
  }

  /**
   A bridged database leaves the step meeting v37 if and only if it can be healed; and no legacy revision is
   left behind.
   */
  lemma BridgeReachesV37Iff(db: Database)
    requires db.version.Revision? && Bridged(db.version.id)
    ensures MeetsV37(Stamp(db).schema) <==> Healable(db.schema) && Placed(db.schema)
    ensures Stamp(db).version.id !in KNOWN_LEGACY_REVISIONS
  {
    StampsAreNotLegacy();
    HealReachesV37Iff(db.schema);
  }

  // ------------------------------------------------------------ the session

  /** A database session: one open transaction over what is committed. */
  class Session {
    var committed: Schema
    var pending: Schema
    var aborted: bool
    var version: Version

    ghost predicate Clean()
      reads this
    {
      !aborted && pending == committed
    }

    ghost function Model(): Database
      reads this
    {
      Database(committed, version)
    }

    constructor (db: Database)
      ensures Clean() && Model() == db
    {
      committed, pending, aborted, version := db.schema, db.schema, false, db.version;
    }

    method Execute(d: Ddl) returns (raised: bool)
      modifies this`pending, this`aborted
      ensures raised <==> old(aborted) || !Runs(old(pending), d)
      ensures aborted <==> raised
      ensures pending == if raised then old(pending) else Apply(old(pending), d)
    {
      if aborted || !Runs(pending, d) {
        aborted := true;
        return true;
      }
      pending := Apply(pending, d);
      raised := false;
    }

    method Commit()
      modifies this`committed, this`pending, this`aborted
      ensures Clean() && committed == if old(aborted) then old(committed) else old(pending)
    {
      if !aborted {
        committed := pending;
      }
      pending := committed;
      aborted := false;
    }
  }

  /** Each failure is swallowed and the loop goes on; it is the transaction that makes the whole all or nothing. */
  method HealSchemaToV37(session: Session) returns (applied: nat)
    requires session.Clean()
    modifies session`committed, session`pending, session`aborted
    ensures session.Clean() && session.committed == Heal(old(session.committed))
    ensures applied == |HEAL_STATEMENTS| <==> RunsAll(old(session.committed), HEAL_STATEMENTS)
  {
    ghost var was := session.committed;
    var list := HEAL_STATEMENTS;
    applied := 0;
    assert list[..0] == [];
    for i := 0 to |list|
      invariant session.committed == was && applied <= i
      invariant session.aborted <==> !RunsAll(was, list[..i])
      invariant !session.aborted ==> session.pending == ApplyAll(was, list[..i]) && applied == i
      invariant session.aborted ==> applied < i
    {
      OneMoreStatement(was, list, i);
      var raised := session.Execute(list[i]);
      if !raised {
        applied := applied + 1;
      }
    }
    assert list[..|list|] == list;
    session.Commit();
  }

  lemma OneMoreStatement(s: Schema, list: seq<Ddl>, i: nat)
    requires i < |list|
    ensures RunsAll(s, list[..i + 1]) <==> RunsAll(s, list[..i]) && Runs(ApplyAll(s, list[..i]), list[i])
    ensures ApplyAll(s, list[..i + 1]) == Apply(ApplyAll(s, list[..i]), list[i])
  {
    assert list[..i + 1] == list[..i] + [list[i]] && [list[i]] + [] == [list[i]];
    RunsAppended(s, list[..i], [list[i]]);
    RunsFirst(ApplyAll(s, list[..i]), list[i], []);
  }

  /** `chain` holds this build's own revisions; the result says whether the unknown-revision warning was given. */
  method CheckAndStampMigrationVersion(session: Session, chain: set<string>) returns (warned: bool)
    requires session.Clean()
    modifies session
    ensures session.Clean() && session.Model() == Stamp(old(session.Model()))
    ensures warned <==>
      old(session.version).Revision? && !Bridged(old(session.version).id) && old(session.version).id !in chain
  {
    warned := false;
    if session.version.NoTable? {
      session.version := Revision(FRESH_INSTALL_STAMP_REVISION);
      return;
    }
    var current := session.version.id;
    if current == "" || current == BASELINE_V37 {
      var _ := HealSchemaToV37(session);
      return;
    }
    if current in KNOWN_LEGACY_REVISIONS {
      var _ := HealSchemaToV37(session);
      session.version := Revision(BASELINE_V37);
      return;
    }
    warned := current !in chain;
  }
}
