/** The reshape in `carregar_dados` (Pokemon_peso_poder.py:18-22): long-format
    stat rows are pivoted into one value per (pokemon id, stat name), the first
    value in input order winning, and the wide table is inner-joined to the
    pokemon table on the id. */
module Reshape {
  import opened Optional

  /** One row of the pokemon table. */
  datatype Pokemon = Pokemon(id: int, name: string, height: int, weight: int)

  /** One row of the long-format stats table. */
  datatype StatRow = StatRow(pokemonId: int, statName: string, baseStat: int)

  /** The pivoted table: pokemon id -> stat name -> value. An id is a row of
      the wide table; a stat name missing from a row's map is a NaN cell. */
  type WideTable = map<int, map<string, int>>

  /** One row of the joined analysis table: the pokemon's own columns and its
      row of the wide table. */
  datatype AnalysisRow = AnalysisRow(entity: Pokemon, stats: map<string, int>)

  /** The ids that occur in the stat rows. */
  function Ids(rows: seq<StatRow>): set<int> {
    set r | r in rows :: r.pokemonId
  }

  /** Some row gives a value for `stat` of pokemon `id`. */
  predicate HasKey(rows: seq<StatRow>, id: int, stat: string) {
    exists j :: 0 <= j < |rows| && rows[j].pokemonId == id && rows[j].statName == stat
  }

  /** Row `i` is the first row with its (id, stat name) pair. */
  predicate IsFirstFor(rows: seq<StatRow>, i: int) {
    && 0 <= i < |rows|
    && forall j :: 0 <= j < i ==>
         !(rows[j].pokemonId == rows[i].pokemonId && rows[j].statName == rows[i].statName)
  }

  /** The cell (id, stat) of a wide table. */
  function Cell(t: WideTable, id: int, stat: string): Option<int> {
    if id in t && stat in t[id] then Some(t[id][stat]) else None
  }

  /** The pivot of the stats rows on pokemon id and stat name, with
      first-value aggregation, built row by row: a row fills its cell only
      when the cell is still empty. */
  function Pivot(rows: seq<StatRow>): WideTable
    decreases |rows|
  {
    if rows == [] then map[]
    else
      var r := rows[|rows| - 1];
      var t := Pivot(rows[..|rows| - 1]);
      if r.pokemonId !in t then t[r.pokemonId := map[r.statName := r.baseStat]]
      else if r.statName in t[r.pokemonId] then t
      else t[r.pokemonId := t[r.pokemonId][r.statName := r.baseStat]]
  }

  /** The wide table has exactly one row per distinct id of the stats rows. */
  lemma {:induction false} PivotRows(rows: seq<StatRow>)
    ensures Pivot(rows).Keys == Ids(rows)
    decreases |rows|
  {
    if rows != [] {
      var prefix := rows[..|rows| - 1];
      var r := rows[|rows| - 1];
      assert rows == prefix + [r];
      PivotRows(prefix);
      assert Ids(rows) == Ids(prefix) + {r.pokemonId};
    }
  }

  /** One step of the pivot: appending a row fills its cell only when that
      cell was still empty, and leaves every other cell as it was. */
  lemma PivotStep(prefix: seq<StatRow>, r: StatRow, id: int, stat: string)
    ensures Cell(Pivot(prefix + [r]), id, stat) ==
              if Cell(Pivot(prefix), id, stat).Some? then Cell(Pivot(prefix), id, stat)
              else if r.pokemonId == id && r.statName == stat then Some(r.baseStat)
              else None
  {
    var rows := prefix + [r];
    assert rows[..|rows| - 1] == prefix;
  }

  /** A cell of the pivot is filled exactly when some row has its pair. */
  lemma {:induction false} PivotCellFilledIff(rows: seq<StatRow>, id: int, stat: string)
    ensures Cell(Pivot(rows), id, stat).Some? <==> HasKey(rows, id, stat)
    decreases |rows|
  {
    if rows != [] {
      var prefix := rows[..|rows| - 1];
      var r := rows[|rows| - 1];
      assert rows == prefix + [r];
      PivotCellFilledIff(prefix, id, stat);
      PivotStep(prefix, r, id, stat);
      if HasKey(prefix, id, stat) {
        var j :| 0 <= j < |prefix| && prefix[j].pokemonId == id && prefix[j].statName == stat;
        assert rows[j] == prefix[j];
      }
      if HasKey(rows, id, stat) && !(r.pokemonId == id && r.statName == stat) {
        var j :| 0 <= j < |rows| && rows[j].pokemonId == id && rows[j].statName == stat;
        assert j < |prefix| && prefix[j] == rows[j];
      }
    }
  }

  /** The first row of each (id, stat) pair is the one the pivot keeps: later
      duplicates never overwrite it. */
  lemma {:induction false} PivotKeepsFirst(rows: seq<StatRow>, i: int)
    requires IsFirstFor(rows, i)
    ensures Cell(Pivot(rows), rows[i].pokemonId, rows[i].statName) == Some(rows[i].baseStat)
    decreases |rows|
  {
    var prefix := rows[..|rows| - 1];
    var r := rows[|rows| - 1];
    var id, stat := rows[i].pokemonId, rows[i].statName;
    assert rows == prefix + [r];
    PivotStep(prefix, r, id, stat);
    if i < |rows| - 1 {
      assert IsFirstFor(prefix, i) by {
        forall j | 0 <= j < i
          ensures !(prefix[j].pokemonId == prefix[i].pokemonId && prefix[j].statName == prefix[i].statName)
        {
          assert prefix[j] == rows[j];
        }
      }
      PivotKeepsFirst(prefix, i);
    } else {
      assert !HasKey(prefix, id, stat) by {
        forall j | 0 <= j < |prefix|
          ensures !(prefix[j].pokemonId == id && prefix[j].statName == stat)
        {
          assert prefix[j] == rows[j];
        }
      }
      PivotCellFilledIff(prefix, id, stat);
    }
  }

  /** The stat names that occur in the stat rows. */
  function StatNames(rows: seq<StatRow>): set<string> {
    set r | r in rows :: r.statName
  }

  /** The wide table has one column per distinct stat name: a name is the
      column of some filled cell exactly when some row carries it. */
  lemma PivotColumns(rows: seq<StatRow>, stat: string)
    ensures (exists id :: id in Pivot(rows) && stat in Pivot(rows)[id]) <==> stat in StatNames(rows)
  {
    var t := Pivot(rows);
    if stat in StatNames(rows) {
      var r :| r in rows && r.statName == stat;
      var j :| 0 <= j < |rows| && rows[j] == r;
      PivotCellFilledIff(rows, r.pokemonId, stat);
      assert Cell(t, r.pokemonId, stat).Some?;
    }
    if exists id :: id in t && stat in t[id] {
      var id :| id in t && stat in t[id];
      PivotCellFilledIff(rows, id, stat);
      var j :| 0 <= j < |rows| && rows[j].pokemonId == id && rows[j].statName == stat;
      assert rows[j] in rows;
    }
  }

  /** The pokemon records of the joined rows, in order. */
  function Entities(rows: seq<AnalysisRow>): (es: seq<Pokemon>)
    ensures |es| == |rows|
    ensures forall i :: 0 <= i < |rows| ==> es[i] == rows[i].entity
  {
    if rows == [] then [] else [rows[0].entity] + Entities(rows[1..])
  }

  /** The inner join of the pokemon table with the wide table on the pokemon
      id: it keeps a pokemon (duplicates included) exactly when its
      id is a row of the wide table, and gives it that row's stats. */
  function Merge(pokemon: seq<Pokemon>, t: WideTable): (r: seq<AnalysisRow>)
    ensures forall i :: 0 <= i < |r| ==> r[i].entity.id in t && r[i].stats == t[r[i].entity.id]
    decreases |pokemon|
  {
    if pokemon == [] then []
    else
      var p := pokemon[0];
      (if p.id in t then [AnalysisRow(p, t[p.id])] else []) + Merge(pokemon[1..], t)
  }

  lemma EntitiesAppend(a: seq<AnalysisRow>, b: seq<AnalysisRow>)
    ensures Entities(a + b) == Entities(a) + Entities(b)
  {
    assert |Entities(a + b)| == |Entities(a) + Entities(b)|;
    forall i | 0 <= i < |a + b|
      ensures Entities(a + b)[i] == (Entities(a) + Entities(b))[i]
    {
      if i < |a| {
        assert (a + b)[i] == a[i];
      } else {
        assert (a + b)[i] == b[i - |a|];
      }
    }
  }

  /** The join keeps a pokemon, as many times as the pokemon table holds it,
      exactly when its id is a row of the wide table. */
  lemma {:induction false} MergeKeepsMatchedIds(pokemon: seq<Pokemon>, t: WideTable, e: Pokemon)
    ensures multiset(Entities(Merge(pokemon, t)))[e] == if e.id in t then multiset(pokemon)[e] else 0
    decreases |pokemon|
  {
    if pokemon != [] {
      var p := pokemon[0];
      var head := if p.id in t then [AnalysisRow(p, t[p.id])] else [];
      var tail := Merge(pokemon[1..], t);
      assert pokemon == [p] + pokemon[1..];
      MergeKeepsMatchedIds(pokemon[1..], t, e);
      EntitiesAppend(head, tail);
      assert Merge(pokemon, t) == head + tail;
    }
  }

  /** `carregar_dados` after its two queries: pivot the stats, then join. */
  function LoadTable(pokemon: seq<Pokemon>, stats: seq<StatRow>): seq<AnalysisRow> {
    Merge(pokemon, Pivot(stats))
  }

  /** The analysis table holds exactly the pokemon whose id occurs in both
      tables, each as many times as the pokemon table holds it. */
  lemma LoadTableRows(pokemon: seq<Pokemon>, stats: seq<StatRow>, e: Pokemon)
    ensures multiset(Entities(LoadTable(pokemon, stats)))[e] ==
              if e.id in Ids(stats) then multiset(pokemon)[e] else 0
  {
    PivotRows(stats);
    MergeKeepsMatchedIds(pokemon, Pivot(stats), e);
  }

  /** Every stat cell of a joined row is present exactly when some stats row
      has that (id, stat) pair, and then holds the first such row's value. */
  lemma LoadTableCells(pokemon: seq<Pokemon>, stats: seq<StatRow>, k: int, stat: string)
    requires 0 <= k < |LoadTable(pokemon, stats)|
    ensures var row := LoadTable(pokemon, stats)[k];
            stat in row.stats <==> HasKey(stats, row.entity.id, stat)
    ensures var row := LoadTable(pokemon, stats)[k];
            forall i :: IsFirstFor(stats, i) && stats[i].pokemonId == row.entity.id &&
                        stats[i].statName == stat ==>
              stat in row.stats && row.stats[stat] == stats[i].baseStat
  {
    var row := LoadTable(pokemon, stats)[k];
    PivotCellFilledIff(stats, row.entity.id, stat);
    forall i | IsFirstFor(stats, i) && stats[i].pokemonId == row.entity.id && stats[i].statName == stat
      ensures stat in row.stats && row.stats[stat] == stats[i].baseStat
    {
      PivotKeepsFirst(stats, i);
    }
  }
}
