/** The notified-event store (event_checker.py, the `notified_events` table and
    the functions that load, save and clear it). The table has the link as its
    primary key and a `notified_at` column defaulting to the current time; the
    model keeps it as a map from link to the timestamp it was first stored with.
    The clock is a parameter: `now` stands for SQLite's CURRENT_TIMESTAMP. */
module Persistence {

  /** `INSERT OR IGNORE`: a new link is stored with the given time, an existing
      row is left exactly as it was. */
  function InsertOrIgnore(rows: map<string, int>, link: string, now: int): (r: map<string, int>)
    ensures r.Keys == rows.Keys + {link}
    ensures forall k :: k in rows ==> r[k] == rows[k]
    ensures link !in rows ==> r[link] == now
  {
    if link in rows then rows else rows[link := now]
  }

  /** The links of a sequence, as a set. */
  function Elements(links: seq<string>): set<string>
  {
    set l | l in links
  }

  /** The rows after inserting each link in turn, all at the same time. */
  function InsertAllOrIgnore(rows: map<string, int>, links: seq<string>, now: int): (r: map<string, int>)
    ensures rows.Keys <= r.Keys
    ensures forall k :: k in rows ==> r[k] == rows[k]
    decreases |links|
  {
    if links == [] then rows
    else InsertOrIgnore(InsertAllOrIgnore(rows, links[..|links| - 1], now), links[|links| - 1], now)
  }

  /** Inserting a link a second time changes nothing, whatever time it carries. */
  lemma InsertIdempotent(rows: map<string, int>, link: string, now: int, later: int)
    ensures InsertOrIgnore(InsertOrIgnore(rows, link, now), link, later) == InsertOrIgnore(rows, link, now)
  {
  }

  /** Inserting a link that is already stored leaves the rows unchanged. */
  lemma InsertPresentIsNoOp(rows: map<string, int>, link: string, now: int)
    requires link in rows
    ensures InsertOrIgnore(rows, link, now) == rows
  {
  }

  /** Inserting a batch of links adds exactly those links, keeps every existing
      row's timestamp and stamps every new row with the batch's time. */
  lemma {:induction false} InsertAllOrIgnoreRows(rows: map<string, int>, links: seq<string>, now: int)
    ensures InsertAllOrIgnore(rows, links, now).Keys == rows.Keys + Elements(links)
    ensures forall k :: k in rows ==> InsertAllOrIgnore(rows, links, now)[k] == rows[k]
    ensures forall k :: k in InsertAllOrIgnore(rows, links, now) && k !in rows ==>
              InsertAllOrIgnore(rows, links, now)[k] == now
    decreases |links|
  {
    if links != [] {
      var pre := links[..|links| - 1];
      InsertAllOrIgnoreRows(rows, pre, now);
      assert Elements(links) == Elements(pre) + {links[|links| - 1]} by {
        assert links == pre + [links[|links| - 1]];
      }
    }
  }

  /** The durable table of links already notified. */
  class NotifiedStore {
    /** link -> notified_at, one row per link (the link is the primary key). */
    var rows: map<string, int>

    /** Opening the database file with whatever rows it already holds
        (`CREATE TABLE IF NOT EXISTS` keeps existing rows). */
    constructor Open(existing: map<string, int>)
      ensures rows == existing
    {
      rows := existing;
    }

    /** The set of links the store holds. */
    function Links(): set<string>
      reads this
    {
      rows.Keys
    }

    /** load_notified_events_from_db: the stored links, as a fresh set. */
    method Load() returns (links: set<string>)
      ensures links == Links()
    {
      links := rows.Keys;
    }

    /** save_event_to_db: `INSERT OR IGNORE` of one link. */
    method Save(link: string, now: int)
      modifies this
      ensures rows == InsertOrIgnore(old(rows), link, now)
      ensures Links() == old(Links()) + {link}
    {
      if link !in rows {
        rows := rows[link := now];
      }
    }

    /** clear_notified_events_in_db: `DELETE` of every row. */
    method Clear()
      modifies this
      ensures rows == map[]
      ensures Links() == {}
    {
      rows := map[];
    }
  }

  /** After storing two links and reopening the file, loading gives exactly those two links. */
  method RestartKeepsLinks(a: string, b: string, t1: int, t2: int) returns (links: set<string>)
    ensures links == {a, b}
  {
    var store := new NotifiedStore.Open(map[]);
    store.Save(a, t1);
    store.Save(b, t2);
    var reopened := new NotifiedStore.Open(store.rows);
    links := reopened.Load();
  }
}
