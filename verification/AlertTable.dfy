/** The alert table: rows under alert ids, which a later alert of the same id overwrites. */
module AlertTable {
  import opened Budget

  predicate HasId(alerts: seq<Alert>, id: string) {
    exists a <- alerts :: a.id == id
  }

  /**
   * The table after the alerts were written one by one, in whatever order: under every id one of its alerts, and all
   * other rows as they were.
   */
  ghost predicate Upserted(alerts: seq<Alert>, table: map<string, Alert>, table': map<string, Alert>) {
    && (forall id :: id in table' <==> id in table || HasId(alerts, id))
    && (forall id <- table' :: if HasId(alerts, id) then table'[id].id == id && table'[id] in alerts
                               else table'[id] == table[id])
  }

  lemma NothingUpserted(table: map<string, Alert>)
    ensures Upserted([], table, table)
  {
  }

  method UpsertAlerts(table: map<string, Alert>, alerts: seq<Alert>) returns (table': map<string, Alert>)
    ensures Upserted(alerts, table, table')
  {
    hide Upserted;
    table' := table;
    NothingUpserted(table);
    assert alerts[..0] == [];
    for i := 0 to |alerts|
      invariant Upserted(alerts[..i], table, table')
    {
      OneUpserted(alerts[..i], alerts[i], table, table');
      assert alerts[..i + 1] == alerts[..i] + [alerts[i]];
      table' := table'[alerts[i].id := alerts[i]];
    }
    assert alerts[..|alerts|] == alerts;
  }

  lemma OneUpserted(alerts: seq<Alert>, a: Alert, table: map<string, Alert>, table': map<string, Alert>)
    requires Upserted(alerts, table, table')
    ensures Upserted(alerts + [a], table, table'[a.id := a])
  {
    hide HasId;
    forall id: string
      ensures HasId(alerts + [a], id) <==> HasId(alerts, id) || a.id == id
    {
      HasIdOfOne(alerts, a, id);
    }
    assert forall x :: x in alerts + [a] <==> x in alerts || x == a;
  }

  lemma HasIdOfOne(alerts: seq<Alert>, a: Alert, id: string)
    ensures HasId(alerts + [a], id) <==> HasId(alerts, id) || a.id == id
  {
    assert forall x :: x in alerts + [a] <==> x in alerts || x == a;
  }

  /** No two different alerts have one id. */
  ghost predicate IdsTellApart(alerts: seq<Alert>) {
    forall a, b | a in alerts && b in alerts :: a.id == b.id ==> a == b
  }

  /** The rows are alerts of the log, one for each of its ids. */
  ghost predicate Records(table: map<string, Alert>, log: seq<Alert>) {
    && (forall id :: id in table <==> HasId(log, id))
    && (forall id <- table :: table[id].id == id && table[id] in log)
  }

  lemma UpsertRecords(log: seq<Alert>, alerts: seq<Alert>, table: map<string, Alert>, table': map<string, Alert>)
    requires Records(table, log) && Upserted(alerts, table, table')
    ensures Records(table', log + alerts)
  {
    assert forall x :: x in log + alerts <==> x in log || x in alerts;
  }

  /** Every alert of the log has its row exactly when the ids tell them apart. */
  lemma AllSurviveIff(log: seq<Alert>, table: map<string, Alert>)
    requires Records(table, log)
    ensures (forall a <- log :: a.id in table && table[a.id] == a) <==> IdsTellApart(log)
  {
    assert forall a <- log :: HasId(log, a.id);
  }
}
