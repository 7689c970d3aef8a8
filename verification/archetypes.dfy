/** Naming the clusters (Pokemon_peso_poder.py:93-106). Each row of the
    centroid summary holds one cluster's centroid in the dataset's own units,
    rounded to one decimal; here every value is an integer count of tenths, so
    values that round to the same decimal are equal. The dominant attribute is
    the first feature, in declaration order, holding the row's maximum
    (`idxmax`); it decides the cluster's archetype, and every pokemon receives
    the archetype of its cluster. */
module Archetypes {
  import opened Optional
  import opened Features
  import opened Reshape

  /** The four archetypes a cluster can be given. */
  datatype Label = Tanques | Atacantes | Velozes | Balanceados

  /** The text the dashboard shows for an archetype. */
  function Text(l: Label): string {
    match l
    case Tanques => "Tanques \U{1F6E1}\U{FE0F}"
    case Atacantes => "Atacantes \U{2694}\U{FE0F}"
    case Velozes => "Velozes \U{26A1}"
    case Balanceados => "Balanceados \U{2696}\U{FE0F}"
  }

  /** The four texts are distinct, so a text names exactly one archetype. */
  lemma TextInjective(l: Label, m: Label)
    ensures Text(l) == Text(m) <==> l == m
  {
  }

  /** One row of the centroid summary: a value, in tenths, per feature, in the
      order of the feature list. */
  type Centroid = c: seq<int> | |c| == 6 witness [0, 0, 0, 0, 0, 0]

  /** `k` is where `xs` first reaches its maximum. */
  predicate IsFirstMax(xs: seq<int>, k: int) {
    && 0 <= k < |xs|
    && (forall j :: 0 <= j < |xs| ==> xs[j] <= xs[k])
    && (forall j :: 0 <= j < k ==> xs[j] < xs[k])
  }

  /** A sequence reaches its maximum first at one place only. */
  lemma FirstMaxUnique(xs: seq<int>, k: int, k': int)
    requires IsFirstMax(xs, k) && IsFirstMax(xs, k')
    ensures k == k'
  {
    assert xs[k] == xs[k'];
  }

  /** `idxmax`: the position of the maximum, the earliest one on a tie. */
  function FirstArgMax(xs: seq<int>): (k: nat)
    requires |xs| > 0
    ensures IsFirstMax(xs, k)
    decreases |xs|
  {
    if |xs| == 1 then 0
    else
      var k := FirstArgMax(xs[..|xs| - 1]);
      if xs[|xs| - 1] > xs[k] then |xs| - 1 else k
  }

  /** The dominant attribute of a centroid: the feature where it first reaches
      its maximum. */
  function Dominant(c: Centroid): (d: Feature)
    ensures IsFirstMax(c, Index(d))
  {
    var k := FirstArgMax(c);
    IndexOfOrder(k);
    Order[k]
  }

  /** The archetype of a dominant attribute, decided on its column name. */
  function Archetype(attr: string): Label {
    if attr in ["hp", "defense"] then Tanques
    else if attr in ["attack", "special-attack"] then Atacantes
    else if attr == "speed" then Velozes
    else Balanceados
  }

  /** How each feature is classified. Because the feature list has exactly six
      names, the final fallback is reached by special-defense and by nothing
      else. */
  lemma ArchetypeOfFeature(f: Feature)
    ensures Archetype(Name(f)) == Tanques <==> f == Hp || f == Defense
    ensures Archetype(Name(f)) == Atacantes <==> f == Attack || f == SpecialAttack
    ensures Archetype(Name(f)) == Velozes <==> f == Speed
    ensures Archetype(Name(f)) == Balanceados <==> f == SpecialDefense
  {
  }

  /** The archetype of a cluster, from its row of the centroid summary. */
  function ClusterArchetype(c: Centroid): Label {
    Archetype(Name(Dominant(c)))
  }

  /** The archetype of a centroid, stated on its values alone: which feature
      holds the maximum first decides the label. */
  lemma ClusterArchetypeSpec(c: Centroid)
    ensures ClusterArchetype(c) == Tanques <==>
              IsFirstMax(c, Index(Hp)) || IsFirstMax(c, Index(Defense))
    ensures ClusterArchetype(c) == Atacantes <==>
              IsFirstMax(c, Index(Attack)) || IsFirstMax(c, Index(SpecialAttack))
    ensures ClusterArchetype(c) == Velozes <==> IsFirstMax(c, Index(Speed))
    ensures ClusterArchetype(c) == Balanceados <==>
              forall j :: 0 <= j < Index(SpecialDefense) ==> c[j] < c[Index(SpecialDefense)]
  {
    var d := Dominant(c);
    ArchetypeOfFeature(d);
    forall f: Feature | IsFirstMax(c, Index(f))
      ensures f == d
    {
      FirstMaxUnique(c, Index(f), Index(d));
    }
    if forall j :: 0 <= j < Index(SpecialDefense) ==> c[j] < c[Index(SpecialDefense)] {
      assert IsFirstMax(c, Index(SpecialDefense));
    }
  }

  /** A feature that ties with an earlier feature is never dominant, whatever
      the other values: on equal (rounded) values the earlier feature wins. */
  lemma TieGoesToEarlierFeature(c: Centroid, f: Feature, g: Feature)
    requires Index(f) < Index(g)
    requires c[Index(f)] == c[Index(g)]
    ensures Dominant(c) != g
  {
  }

  /** A feature strictly above every other one is dominant: a centroid with
      attack at 100 and zero elsewhere is Atacantes, with hp at 100 Tanques. */
  lemma StrictMaximumIsDominant(c: Centroid, f: Feature)
    requires forall j :: 0 <= j < |c| && j != Index(f) ==> c[j] < c[Index(f)]
    ensures Dominant(c) == f
    ensures ClusterArchetype(c) == Archetype(Name(f))
  {
  }

  /** The loop that fills `cluster_labels`: one entry per row of the centroid
      summary, whose index runs over the cluster ids 0 .. k-1. */
  method LabelClusters(summary: seq<Centroid>) returns (labels: map<int, Label>)
    ensures forall c :: c in labels <==> 0 <= c < |summary|
    ensures forall c :: 0 <= c < |summary| ==> labels[c] == ClusterArchetype(summary[c])
  {
    labels := map[];
    var c := 0;
    while c < |summary|
      invariant 0 <= c <= |summary|
      invariant forall i :: i in labels <==> 0 <= i < c
      invariant forall i :: 0 <= i < c ==> labels[i] == ClusterArchetype(summary[i])
    {
      var attr := Name(Dominant(summary[c]));
      labels := labels[c := Archetype(attr)];
      c := c + 1;
    }
  }

  /** A row of the analysis table with the cluster id k-means gave it. */
  datatype ClusteredRow = ClusteredRow(row: AnalysisRow, cluster: int)

  /** The same row with its `cluster_label` column; `None` is the NaN that
      `Series.map` gives an id missing from the dictionary. */
  datatype LabelledRow = LabelledRow(row: AnalysisRow, cluster: int, clusterLabel: Option<Label>)

  /** Mapping each pokemon's cluster id through the label dictionary: a
      pokemon gets the label of its own cluster id, and nothing else about it
      changes. */
  function MapClusterLabels(rows: seq<ClusteredRow>, labels: map<int, Label>): (r: seq<LabelledRow>)
    ensures |r| == |rows|
    ensures forall i :: 0 <= i < |rows| ==>
              r[i].row == rows[i].row && r[i].cluster == rows[i].cluster
    ensures forall i :: 0 <= i < |rows| ==>
              r[i].clusterLabel == if rows[i].cluster in labels then Some(labels[rows[i].cluster]) else None
    decreases |rows|
  {
    if rows == [] then []
    else
      var x := rows[0];
      [LabelledRow(x.row, x.cluster, if x.cluster in labels then Some(labels[x.cluster]) else None)]
        + MapClusterLabels(rows[1..], labels)
  }

  /** Lines 94-106 together: name every cluster, then label every pokemon.
      A pokemon whose cluster id has a summary row gets that row's archetype;
      any other id gets no label. */
  method NameClusters(rows: seq<ClusteredRow>, summary: seq<Centroid>)
    returns (r: seq<LabelledRow>, labels: map<int, Label>)
    ensures forall c :: c in labels <==> 0 <= c < |summary|
    ensures |r| == |rows|
    ensures forall i :: 0 <= i < |rows| ==>
              r[i].row == rows[i].row && r[i].cluster == rows[i].cluster
    ensures forall i :: 0 <= i < |rows| ==>
              (r[i].clusterLabel.Some? <==> 0 <= rows[i].cluster < |summary|)
    ensures forall i :: 0 <= i < |rows| && 0 <= rows[i].cluster < |summary| ==>
              r[i].clusterLabel == Some(ClusterArchetype(summary[rows[i].cluster]))
  {
    labels := LabelClusters(summary);
    r := MapClusterLabels(rows, labels);
  }

  /** Two pokemon in the same cluster get the same label. */
  lemma SameClusterSameLabel(rows: seq<ClusteredRow>, labels: map<int, Label>, i: int, j: int)
    requires 0 <= i < |rows| && 0 <= j < |rows|
    requires rows[i].cluster == rows[j].cluster
    ensures MapClusterLabels(rows, labels)[i].clusterLabel == MapClusterLabels(rows, labels)[j].clusterLabel
  {
  }
}
