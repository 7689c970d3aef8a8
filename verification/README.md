# Pokémon archetypes: a Dafny model of the dashboard's own logic

The dashboard `Pokemon_peso_poder.py` loads two tables: pokemon, and
long-format stats rows `(pokemon_id, stat_name, base_stat)`. It reshapes them
into one analysis table. It then clusters the pokemon with k-means and names
each cluster after its dominant attribute. Almost everything else is library
calls: correlation, regression, scaling, k-means and PCA. This project models
the two parts the script decides for itself:

- **Reshape** (`carregar_dados`, lines 18-22). The stats are pivoted to one
  value per `(pokemon_id, stat_name)` pair, and the first value in input order
  wins (`aggfunc='first'`). The pivot is then inner-joined to the pokemon table
  on the id.
- **Archetype labelling** (lines 78, 93-106). Each row of the rounded centroid
  summary has six values, in the feature order `hp, attack, defense, speed,
  special-attack, special-defense`. `idxmax` picks the dominant attribute: the
  first feature that holds the row's maximum. The attribute name then maps to a
  label: `hp`/`defense` give "Tanques 🛡️"; `attack`/`special-attack` give
  "Atacantes ⚔️"; `speed` gives "Velozes ⚡"; anything else gives
  "Balanceados ⚖️". Every pokemon then gets the label of its own cluster id.

Modules:

- `optional.dfy`: `Option`, which stands for a missing cell or NaN.
- `features.dfy`: the six features, their column names and their fixed order.
- `reshape.dfy`: stats rows, the pivot, the join and `LoadTable`.
- `archetypes.dfy`: the first-maximum rule, the classification, the loop that
  fills `cluster_labels`, and the per-pokemon mapping.

Centroid values are integers counting tenths. They are taken after the
`.round(1)` of line 93, so two values that round to the same decimal are equal
and tie. Cluster ids and the centroid summary are inputs to the model.

The labels are the Portuguese strings of lines 99-105, emoji included.

`pd.merge` at line 22 is an inner join, so a pokemon with no stats row is
dropped from the analysis table.

The program never checks the cluster count. Its only bound is the slider at
line 82, so the model has no error case for an out-of-range count.

## Model

| member | source | states |
|---|---|---|
| Features.Index | Pokemon_peso_poder.py:78 | each feature has a position in the feature list, and that position holds the feature |
| Features.IndexOfOrder | Pokemon_peso_poder.py:78 | every position of the six-entry feature list holds the feature with that index, so the list names each feature exactly once |
| Features.NameInjective | Pokemon_peso_poder.py:78 | two features have the same column name only if they are the same feature |
| Features.Order | Pokemon_peso_poder.py:78 | the feature list itself, a constant with no contract of its own; its properties are stated by Features.Index and Features.IndexOfOrder |
| Archetypes.FirstArgMax | Pokemon_peso_poder.py:97 | `idxmax` returns a position whose value is at least every value, and every earlier value is strictly smaller (ties go to the earliest) |
| Archetypes.FirstMaxUnique | Pokemon_peso_poder.py:97 | only one position can be the first maximum, so the dominant attribute is well defined |
| Archetypes.Dominant | Pokemon_peso_poder.py:93-97 | the dominant attribute is the feature, in declaration order, where the rounded centroid row first reaches its maximum |
| Archetypes.TieGoesToEarlierFeature | Pokemon_peso_poder.py:93-97 | a feature whose rounded value equals that of an earlier feature is never dominant, so the earlier feature wins the tie |
| Archetypes.StrictMaximumIsDominant | Pokemon_peso_poder.py:93-97 | a feature strictly above all the others is the dominant attribute |
| Archetypes.Archetype | Pokemon_peso_poder.py:98-105 | the if/elif chain on the attribute name; it carries no contract of its own, and its properties are stated by Archetypes.ArchetypeOfFeature |
| Archetypes.ClusterArchetype | Pokemon_peso_poder.py:96-105 | the loop body, from a summary row to its label; it carries no contract of its own, and its properties are stated by Archetypes.ClusterArchetypeSpec, Archetypes.TieGoesToEarlierFeature and Archetypes.StrictMaximumIsDominant |
| Archetypes.ArchetypeOfFeature | Pokemon_peso_poder.py:98-105 | hp or defense gives Tanques; attack or special-attack gives Atacantes; speed gives Velozes; Balanceados is given if and only if the attribute is special-defense, since the list has six names |
| Archetypes.ClusterArchetypeSpec | Pokemon_peso_poder.py:93-105 | each label holds exactly when the row first reaches its maximum at one of that label's features; Balanceados holds exactly when special-defense is strictly above the other five values |
| Archetypes.Text | Pokemon_peso_poder.py:99-105 | the four label strings, emoji included; it carries no contract of its own, and Archetypes.TextInjective states that they are distinct |
| Archetypes.TextInjective | Pokemon_peso_poder.py:99-105 | the four label texts are pairwise distinct, so every label is exactly one of four fixed strings |
| Archetypes.LabelClusters | Pokemon_peso_poder.py:94-105 | the loop gives every cluster index 0..k-1 exactly one label, the archetype of its summary row, and no other key |
| Archetypes.MapClusterLabels | Pokemon_peso_poder.py:106 | each pokemon's `cluster_label` is the dictionary entry for its own cluster id (NaN when there is none), and its other fields are unchanged |
| Archetypes.NameClusters | Pokemon_peso_poder.py:94-106 | after naming, a pokemon has a label if and only if its cluster id has a summary row, and that label is the archetype of its cluster's centroid; row and cluster id are unchanged |
| Archetypes.SameClusterSameLabel | Pokemon_peso_poder.py:106 | two pokemon in the same cluster carry the same label |
| Reshape.Pivot | Pokemon_peso_poder.py:18-21 | the pivot with first-value aggregation; it carries no contract of its own, and its properties are stated by Reshape.PivotRows, Reshape.PivotStep, Reshape.PivotCellFilledIff, Reshape.PivotKeepsFirst and Reshape.PivotColumns |
| Reshape.PivotRows | Pokemon_peso_poder.py:18-21 | the wide table has exactly one row per distinct pokemon id of the stats rows |
| Reshape.PivotStep | Pokemon_peso_poder.py:18-21 | a further stats row fills its own cell only if that cell is still empty, and leaves every other cell alone |
| Reshape.PivotCellFilledIff | Pokemon_peso_poder.py:18-21 | a cell (id, stat) is filled if and only if some stats row carries that pair |
| Reshape.PivotKeepsFirst | Pokemon_peso_poder.py:18-21 | the value of each filled cell is the `base_stat` of the first row, in input order, with that (id, stat) pair |
| Reshape.PivotColumns | Pokemon_peso_poder.py:18-21 | the wide table has one column per distinct stat name of the stats rows |
| Reshape.Merge | Pokemon_peso_poder.py:22 | every joined row's id is a row of the wide table, and the joined row carries that row's stats |
| Reshape.MergeKeepsMatchedIds | Pokemon_peso_poder.py:22 | the join keeps a pokemon, with the multiplicity the pokemon table gives it, exactly when its id is in the wide table; otherwise it drops it |
| Reshape.LoadTable | Pokemon_peso_poder.py:18-22 | the reshape part of `carregar_dados`, pivot then join; it carries no contract of its own, and its properties are stated by Reshape.LoadTableRows and Reshape.LoadTableCells |
| Reshape.LoadTableRows | Pokemon_peso_poder.py:18-22 | the analysis table holds exactly the pokemon whose id appears in both tables, each with its multiplicity in the pokemon table |
| Reshape.LoadTableCells | Pokemon_peso_poder.py:18-22 | a stat cell of an analysis-table row is present exactly when some stats row has that (id, stat) pair, and then holds the first such row's `base_stat` |

## Left out

- The SQLite connection and the two queries (lines 13-16) are I/O. The two tables are parameters.
- The one-hour `st.cache_data` cache (line 11) is framework behaviour tied to the wall clock.
- Spearman correlation (line 41), linear regression and R² (lines 61-62) are floating-point library numerics.
- `fillna(0)`, `StandardScaler`, `KMeans`, `PCA` and `inverse_transform` (lines 80-93) are floating-point library code. The cluster ids and the de-standardised centroids are inputs.
- The `.round(1)` of line 93 (pandas round-half-even on floats) is not modelled. Centroids arrive already rounded, as tenths.
- Reshape.Pivot: NULL `base_stat`, `pokemon_id` or `stat_name` values are not modelled. Every stats row has all three. pandas' `first` would skip a NULL value and drop NULL keys.
- Reshape.Merge: the contract does not state that joined rows keep the pokemon table's order. The definition keeps it.
- Reshape.Merge: column-name clashes between the two tables, which pandas resolves with `_x`/`_y` suffixes, are not modelled.
- The Streamlit presentation is UI and serialisation glue: tabs, text, charts, the cluster-count slider, the summary table display and the CSV download (lines 28-146).
