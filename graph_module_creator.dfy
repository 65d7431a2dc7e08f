/**
  * The graph-building helpers: the shape and index bookkeeping of Split, of
  * stacked fully connected layers, of the group embedding lookups and of the
  * target creators. Graph nodes are modelled as records of a plan (which
  * constructor, with which name, inputs, shape and initializer); the nodes'
  * own behaviour is not modelled.
  *
  * The shape of the input node X is passed beside it. Shape::real_axis is
  * not modelled: the caller passes its outcome, the normalised axis, or None
  * when it rejects the axis.
  */
module GraphModuleCreator {
  import opened Base
  import opened GroupConfig

  datatype TensorType = Tsr | Srm | Csr
  datatype Initializer = InitZeros | InitRandn | InitRandXavier
  datatype Activation = SigmoidAct | TanhAct | ReluAct
  datatype LossKind = SigmoidBCELoss | SquareErrorLoss | AbsoluteErrorLoss

  /** The four lookup node kinds: per-group tables or one shared table, with 16-bit or int group ids. */
  datatype LookupKind = GroupLookup16 | GroupLookup16Shared | GroupLookup18 | GroupLookup18Shared

  datatype Node =
    | Input(id: nat)                     // a node handed in by the caller
    | InstanceY(labelSize: int)          // GetY
    | InstanceW(labelSize: int)          // GetW
    | Variable(name: string, shape: seq<int>, tensorType: TensorType, init: Initializer, needGrad: bool)
    | ScopedVariable(name: string, shape: seq<int>, init: Initializer)   // GetVariableRandXavier / GetVariableZeros
    | SubscriptRange(name: string, x: Node, axis: nat, begin: int, end: int)
    | Lookup(kind: LookupKind, x: Node, tables: seq<Node>, groupIds: seq<int>)
    | FullyConnect(x: Node, w: Node, b: Node)
    | Activate(act: Activation, name: string, x: Node)
    | Loss(loss: LossKind, name: string, x: Node, y: Node)
    | Mul(name: string, a: Node, b: Node)
    | ReduceMean(name: string, x: Node)

  // ---------------------------------------------------------------------
  // Split
  // ---------------------------------------------------------------------

  /** Piece i is named prefix + i, or "" for the overloads without a prefix. */
  function PieceName(prefix: Option<string>, i: int): string
  {
    if prefix.None? then "" else prefix.value + IntToString(i)
  }

  /** Every piece is a range of X along the axis, named after its index. */
  predicate Pieces(nodes: seq<Node>, prefix: Option<string>, x: Node, axis: nat)
  {
    forall i :: 0 <= i < |nodes| ==>
      nodes[i].SubscriptRange? && nodes[i].x == x && nodes[i].axis == axis && nodes[i].name == PieceName(prefix, i)
  }

  /** The ranges start at 0, each begins where the previous ends, and the last ends at k. */
  predicate Tiles(nodes: seq<Node>, k: int)
    requires forall i :: 0 <= i < |nodes| ==> nodes[i].SubscriptRange?
  {
    if nodes == [] then k == 0
    else
      && nodes[0].begin == 0
      && nodes[|nodes| - 1].end == k
      && forall i :: 0 <= i < |nodes| - 1 ==> nodes[i].end == nodes[i + 1].begin
  }

  /**
    * Split(prefix, X, axis, n) and Split(X, axis, n): n ranges of equal length
    * k / n where k is the axis dimension. It throws when the axis is rejected
    * or n does not divide k; a negative n throws as the node vector cannot
    * have that size. A zero n would divide by zero and is excluded.
    */
  method SplitEven(prefix: Option<string>, x: Node, xShape: seq<int>, realAxis: Option<nat>, n: int32)
    returns (r: Outcome<seq<Node>>)
    requires realAxis.Some? ==> realAxis.value < |xShape| && n != 0
    ensures r.Returned? <==> realAxis.Some? && CRem(xShape[realAxis.value], n) == 0 && n > 0
    ensures r.Returned? ==>
      var k, nodes := xShape[realAxis.value], r.value;
      && |nodes| == n
      && Pieces(nodes, prefix, x, realAxis.value)
      && (forall i :: 0 <= i < |nodes| ==> nodes[i].end - nodes[i].begin == k / n)
      && Tiles(nodes, k)
  {
    if realAxis.None? {
      return Threw;
    }
    var axis := realAxis.value;
    var k := xShape[axis];
    if CRem(k, n) != 0 || n < 0 {
      return Threw;
    }
    var splitDim := CDiv(k, n);
    CDivExact(k, n);
    var dims := seq(n, _ => splitDim);
    SumConstant(n, splitDim);
    var nodes := DimPieces(prefix, x, axis, dims);
    PrefixSumRangesTile(nodes, dims);
    return Returned(nodes);
  }

  /** When the C remainder is zero and n is positive, k is exactly n pieces of the Euclidean quotient. */
  lemma CDivExact(k: int, n: int)
    requires n > 0 && CRem(k, n) == 0
    ensures CDiv(k, n) == k / n && n * (k / n) == k
  {
    if k < 0 {
      assert Abs(k) == n * (Abs(k) / n) + Abs(k) % n;
    }
  }

  function Sum(dims: seq<int>): int
    decreases |dims|
  {
    if dims == [] then 0 else Sum(dims[..|dims| - 1]) + dims[|dims| - 1]
  }

  /** n equal lengths add up to n times the length. */
  lemma {:induction false} SumConstant(n: nat, d: int)
    ensures Sum(seq(n, _ => d)) == n * d
  {
    if n > 0 {
      assert seq(n, _ => d)[..n - 1] == seq(n - 1, _ => d);
      SumConstant(n - 1, d);
    }
  }

  /** Piece j spans from the sum of the lengths before it to the sum up to and including it. */
  predicate SpansPrefixSums(nodes: seq<Node>, dims: seq<int>)
    requires |nodes| <= |dims|
  {
    forall j :: 0 <= j < |nodes| ==>
      nodes[j].SubscriptRange? && nodes[j].begin == Sum(dims[..j]) && nodes[j].end == Sum(dims[..j + 1])
  }

  lemma SumSnoc(dims: seq<int>, j: nat)
    requires j < |dims|
    ensures Sum(dims[..j + 1]) == Sum(dims[..j]) + dims[j]
  {
    assert dims[..j + 1][..j] == dims[..j];
  }

  /** Ranges at the prefix sums of the lengths have those lengths and tile their total. */
  lemma PrefixSumRangesTile(nodes: seq<Node>, dims: seq<int>)
    requires |nodes| == |dims| && SpansPrefixSums(nodes, dims)
    ensures forall j :: 0 <= j < |nodes| ==> nodes[j].end - nodes[j].begin == dims[j]
    ensures Tiles(nodes, Sum(dims))
  {
    forall j | 0 <= j < |nodes| ensures nodes[j].end - nodes[j].begin == dims[j] {
      SumSnoc(dims, j);
    }
    assert dims[..|dims|] == dims;
  }

  lemma SpansSnoc(nodes: seq<Node>, dims: seq<int>, name: string, x: Node, axis: nat)
    requires |nodes| < |dims| && SpansPrefixSums(nodes, dims)
    ensures SpansPrefixSums(nodes + [SubscriptRange(name, x, axis, Sum(dims[..|nodes|]), Sum(dims[..|nodes| + 1]))], dims)
  {
  }

  lemma PiecesSnoc(nodes: seq<Node>, prefix: Option<string>, x: Node, axis: nat, begin: int, end: int)
    requires Pieces(nodes, prefix, x, axis)
    ensures Pieces(nodes + [SubscriptRange(PieceName(prefix, |nodes|), x, axis, begin, end)], prefix, x, axis)
  {
  }

  /**
    * Split(prefix, X, axis, split_dims) and Split(X, axis, split_dims): piece i
    * has length split_dims[i], in order. It throws when the axis is rejected
    * or the lengths do not add up to the axis dimension.
    */
  method SplitDims(prefix: Option<string>, x: Node, xShape: seq<int>, realAxis: Option<nat>, splitDims: seq<int>)
    returns (r: Outcome<seq<Node>>)
    requires realAxis.Some? ==> realAxis.value < |xShape|
    ensures r.Returned? <==> realAxis.Some? && xShape[realAxis.value] == Sum(splitDims)
    ensures r.Returned? ==>
      var k, nodes := xShape[realAxis.value], r.value;
      && |nodes| == |splitDims|
      && Pieces(nodes, prefix, x, realAxis.value)
      && (forall i :: 0 <= i < |nodes| ==> nodes[i].end - nodes[i].begin == splitDims[i])
      && Tiles(nodes, k)
  {
    if realAxis.None? {
      return Threw;
    }
    var axis := realAxis.value;
    var k := xShape[axis];
    var total := 0;
    for i := 0 to |splitDims|
      invariant total == Sum(splitDims[..i])
    {
      SumSnoc(splitDims, i);
      total := total + splitDims[i];
    }
    assert splitDims[..|splitDims|] == splitDims;
    if k != total {
      return Threw;
    }
    var nodes := DimPieces(prefix, x, axis, splitDims);
    PrefixSumRangesTile(nodes, splitDims);
    return Returned(nodes);
  }

  /** The loop of Split(..., split_dims): each piece begins where the previous one ended. */
  method DimPieces(prefix: Option<string>, x: Node, axis: nat, splitDims: seq<int>) returns (nodes: seq<Node>)
    ensures |nodes| == |splitDims|
    ensures Pieces(nodes, prefix, x, axis)
    ensures SpansPrefixSums(nodes, splitDims)
  {
    nodes := [];
    var beginIndex := 0;
    var endIndex := 0;
    for i := 0 to |splitDims|
      invariant |nodes| == i && endIndex == Sum(splitDims[..i])
      invariant Pieces(nodes, prefix, x, axis)
      invariant SpansPrefixSums(nodes, splitDims)
    {
      SumSnoc(splitDims, i);
      beginIndex := endIndex;
      endIndex := endIndex + splitDims[i];
      PiecesSnoc(nodes, prefix, x, axis, beginIndex, endIndex);
      SpansSnoc(nodes, splitDims, PieceName(prefix, i), x, axis);
      nodes := nodes + [SubscriptRange(PieceName(prefix, i), x, axis, beginIndex, endIndex)];
    }
  }

  /** Tiling ranges are determined by their lengths: piece i begins at the sum of the earlier lengths. */
  lemma {:induction false} TilesBegin(nodes: seq<Node>, k: int, i: nat)
    requires forall j :: 0 <= j < |nodes| ==> nodes[j].SubscriptRange?
    requires Tiles(nodes, k) && i < |nodes|
    ensures nodes[i].begin == Sum(seq(i, j requires 0 <= j < i => nodes[j].end - nodes[j].begin))
  {
    var lengths := seq(i, j requires 0 <= j < i => nodes[j].end - nodes[j].begin);
    if i > 0 {
      TilesBegin(nodes, k, i - 1);
      assert lengths[..i - 1] == seq(i - 1, j requires 0 <= j < i - 1 => nodes[j].end - nodes[j].begin);
    }
  }

  /** Piece names are distinct when a prefix is given. */
  lemma PieceNamesDistinct(prefix: string, i: int, j: int)
    requires i != j
    ensures PieceName(Some(prefix), i) != PieceName(Some(prefix), j)
  {
    if PieceName(Some(prefix), i) == PieceName(Some(prefix), j) {
      NumberedNamesInjective(prefix, i, j);
    }
  }

  // ---------------------------------------------------------------------
  // StackedFullyConnect
  // ---------------------------------------------------------------------

  function ParseActivation(activation: string): (act: Option<Activation>)
    ensures act.Some? <==> activation in {"sigmoid", "tanh", "relu"}
  {
    if activation == "sigmoid" then Some(SigmoidAct)
    else if activation == "tanh" then Some(TanhAct)
    else if activation == "relu" then Some(ReluAct)
    else None
  }

  /** The layer widths: deep_dims, with X's width put in front unless it already starts with it. */
  function LayerDims(xCol: int, deepDims: seq<int>): (dims: seq<int>)
    requires deepDims != []
    ensures dims != [] && dims[0] == xCol
    ensures |dims| == |deepDims| + (if deepDims[0] == xCol then 0 else 1)
    ensures dims[|dims| - |deepDims|..] == deepDims
  {
    if deepDims[0] != xCol then [xCol] + deepDims else deepDims
  }

  /** One fully connected layer: its weight, its bias, and its activation if any. */
  datatype Layer = Layer(w: Node, b: Node, activation: Option<Activation>)

  /**
    * Layer i of the stack for widths dims: it maps width dims[i] to
    * dims[i+1] with weight prefix + "W" + i and bias prefix + "b" + i, and is
    * activated unless it is the last layer and the final width is 1.
    */
  function LayerAt(prefix: string, dims: seq<int>, act: Activation, i: nat): (layer: Layer)
    requires i < |dims| - 1
    ensures layer.w.ScopedVariable? && layer.w.shape == [dims[i], dims[i + 1]] && layer.w.init == InitRandXavier
    ensures layer.b.ScopedVariable? && layer.b.shape == [1, dims[i + 1]] && layer.b.init == InitZeros
    ensures layer.w.name == prefix + "W" + IntToString(i) && layer.b.name == prefix + "b" + IntToString(i)
    ensures layer.activation.None? <==> i == |dims| - 2 && dims[|dims| - 1] == 1
    ensures layer.activation.Some? ==> layer.activation.value == act
  {
    Layer(ScopedVariable(prefix + "W" + IntToString(i), [dims[i], dims[i + 1]], InitRandXavier),
          ScopedVariable(prefix + "b" + IntToString(i), [1, dims[i + 1]], InitZeros),
          if dims[|dims| - 1] == 1 && i == |dims| - 2 then None else Some(act))
  }

  /** All layers of the stack for widths dims, one fewer than there are widths. */
  function Layers(prefix: string, dims: seq<int>, act: Activation): (layers: seq<Layer>)
    requires dims != []
    ensures |layers| == |dims| - 1
    ensures forall i :: 0 <= i < |layers| ==> layers[i] == LayerAt(prefix, dims, act, i)
  {
    seq(|dims| - 1, i requires 0 <= i < |dims| - 1 => LayerAt(prefix, dims, act, i))
  }

  /** One layer: the fully connected step, then the activation when the layer has one. */
  function ApplyLayer(z: Node, layer: Layer): (r: Node)
    ensures r.FullyConnect? <==> layer.activation.None?
    ensures r.FullyConnect? || (r.Activate? && r.act == layer.activation.value && r.name == "")
    ensures var h := if r.Activate? then r.x else r;
      h.FullyConnect? && h.x == z && h.w == layer.w && h.b == layer.b
  {
    var h := FullyConnect(z, layer.w, layer.b);
    if layer.activation.None? then h else Activate(layer.activation.value, "", h)
  }

  /** X fed through the layers in order. */
  function Chain(x: Node, layers: seq<Layer>): (r: Node)
    ensures layers == [] ==> r == x
    ensures layers != [] ==> (r.FullyConnect? || r.Activate?)
    ensures layers != [] ==> (r.FullyConnect? <==> layers[|layers| - 1].activation.None?)
    decreases |layers|
  {
    if layers == [] then x else ApplyLayer(Chain(x, layers[..|layers| - 1]), layers[|layers| - 1])
  }

  lemma ChainStep(x: Node, layers: seq<Layer>, i: nat)
    requires i < |layers|
    ensures Chain(x, layers[..i + 1]) == ApplyLayer(Chain(x, layers[..i]), layers[i])
  {
    assert layers[..i + 1][..i] == layers[..i];
  }

  /**
    * StackedFullyConnect: X must have rank 2, deep_dims must be non-empty and
    * the activation one of sigmoid, tanh, relu; the result is X fed through
    * the layers for LayerDims(X's width, deep_dims).
    */
  method StackedFullyConnect(prefix: string, x: Node, xShape: seq<int>, deepDims: seq<int>, activation: string)
    returns (r: Outcome<Node>)
    ensures r.Returned? <==> |xShape| == 2 && deepDims != [] && activation in {"sigmoid", "tanh", "relu"}
    ensures r.Returned? ==>
      r.value == Chain(x, Layers(prefix, LayerDims(xShape[1], deepDims), ParseActivation(activation).value))
  {
    var parsed := ParseActivation(activation);
    if |xShape| != 2 || deepDims == [] || parsed.None? {
      return Threw;
    }
    var dims: seq<int> := [];
    if deepDims[0] != xShape[1] {
      dims := dims + [xShape[1]];
    }
    dims := dims + deepDims;
    assert dims == LayerDims(xShape[1], deepDims);
    var z := StackLayers(prefix, x, dims, parsed.value);
    return Returned(z);
  }

  /** The layer loop of StackedFullyConnect, over the widths dims. */
  method StackLayers(prefix: string, x: Node, dims: seq<int>, act: Activation) returns (z: Node)
    requires dims != []
    ensures z == Chain(x, Layers(prefix, dims, act))
  {
    ghost var layers := Layers(prefix, dims, act);
    z := x;
    var deepSize := |dims| - 1;
    for i := 0 to deepSize
      invariant z == Chain(x, layers[..i])
    {
      var w := ScopedVariable(prefix + "W" + IntToString(i), [dims[i], dims[i + 1]], InitRandXavier);
      var b := ScopedVariable(prefix + "b" + IntToString(i), [1, dims[i + 1]], InitZeros);
      var h := FullyConnect(z, w, b);
      ChainStep(x, layers, i);
      if dims[|dims| - 1] == 1 && i == deepSize - 1 {
        z := h;
      } else {
        z := Activate(act, "", h);
      }
    }
    assert layers[..deepSize] == layers;
  }

  /**
    * The layers fit together: the first takes X's width, each takes the width
    * the previous one gives, each bias matches its layer's output, and the
    * last gives the last of deep_dims.
    */
  lemma LayersCompose(prefix: string, xCol: int, deepDims: seq<int>, act: Activation)
    requires deepDims != []
    ensures var dims := LayerDims(xCol, deepDims);
      var layers := Layers(prefix, dims, act);
      && (layers != [] ==> layers[0].w.shape[0] == xCol)
      && (layers != [] ==> layers[|layers| - 1].w.shape[1] == deepDims[|deepDims| - 1])
      && (forall i :: 0 <= i < |layers| - 1 ==> layers[i].w.shape[1] == layers[i + 1].w.shape[0])
      && (forall i :: 0 <= i < |layers| ==> layers[i].b.shape == [1, layers[i].w.shape[1]])
  {
    var dims := LayerDims(xCol, deepDims);
    assert dims[|dims| - 1] == deepDims[|deepDims| - 1] by {
      assert dims[|dims| - |deepDims|..][|deepDims| - 1] == dims[|dims| - 1];
    }
  }

  /** deep_dims starting with X's width gives one layer fewer than deep_dims has entries; otherwise one per entry. */
  lemma LayerCount(prefix: string, xCol: int, deepDims: seq<int>, act: Activation)
    requires deepDims != []
    ensures |Layers(prefix, LayerDims(xCol, deepDims), act)| == if deepDims[0] == xCol then |deepDims| - 1 else |deepDims|
  {
  }

  /** The weight and bias names of all layers are pairwise distinct. */
  lemma LayerNamesDistinct(prefix: string, dims: seq<int>, act: Activation, i: nat, j: nat)
    requires dims != [] && i < |dims| - 1 && j < |dims| - 1
    ensures var layers := Layers(prefix, dims, act);
      && layers[i].w.name != layers[j].b.name
      && (i != j ==> layers[i].w.name != layers[j].w.name && layers[i].b.name != layers[j].b.name)
  {
    var layers := Layers(prefix, dims, act);
    assert layers[i].w.name[|prefix|] == 'W';
    assert layers[j].b.name[|prefix|] == 'b';
    if i != j {
      if layers[i].w.name == layers[j].w.name {
        NumberedNamesInjective(prefix + "W", i, j);
      }
      if layers[i].b.name == layers[j].b.name {
        NumberedNamesInjective(prefix + "b", i, j);
      }
    }
  }

  /** How many fully connected layers a plan stacks on its input. */
  function Depth(z: Node, x: Node): nat
  {
    if z == x then 0
    else match z
      case FullyConnect(inner, _, _) => 1 + Depth(inner, x)
      case Activate(_, _, inner) => Depth(inner, x)
      case _ => 0
  }

  /** The number of fully connected and activation steps wrapped around a node. */
  function Size(z: Node): nat
  {
    match z
      case FullyConnect(inner, _, _) => 1 + Size(inner)
      case Activate(_, _, inner) => 1 + Size(inner)
      case _ => 0
  }

  /** Stacking layers never shrinks the node it starts from. */
  lemma {:induction false} ChainSize(x: Node, layers: seq<Layer>)
    ensures Size(Chain(x, layers)) >= Size(x) + |layers|
    decreases |layers|
  {
    if layers != [] {
      ChainSize(x, layers[..|layers| - 1]);
    }
  }

  /**
    * Stacking the layers on any input node X adds exactly one fully connected
    * step per layer.
    */
  lemma {:induction false} ChainDepth(x: Node, layers: seq<Layer>)
    ensures Depth(Chain(x, layers), x) == |layers|
    decreases |layers|
  {
    if layers != [] {
      var init := layers[..|layers| - 1];
      ChainDepth(x, init);
      ChainSize(x, init);
      var inner := Chain(x, init);
      var last := layers[|layers| - 1];
      var h := FullyConnect(inner, last.w, last.b);
      assert Size(h) > Size(x);
      assert Depth(h, x) == 1 + Depth(inner, x);
      if last.activation.Some? {
        assert Size(Activate(last.activation.value, "", h)) > Size(x);
      }
    }
  }

  /** The stacked output is a bare fully connected node exactly when the final width is 1. */
  lemma OutputLinearIffWidthOne(prefix: string, x: Node, dims: seq<int>, act: Activation)
    requires |dims| >= 2
    ensures Chain(x, Layers(prefix, dims, act)).FullyConnect? <==> dims[|dims| - 1] == 1
  {
    var layers := Layers(prefix, dims, act);
    assert layers[|layers| - 1].activation.None? <==> dims[|dims| - 1] == 1;
  }

  // ---------------------------------------------------------------------
  // Group embedding lookups
  // ---------------------------------------------------------------------

  datatype Width = Wide | Deep
  datatype IdWidth = Ids16 | Ids18

  /** The group id the lookup node receives: cast to uint16 for the plain family, the int itself for "18". */
  function LookupGroupId(ids: IdWidth, groupId: int32): (g: int)
    ensures ids == Ids18 ==> g == groupId
    ensures ids == Ids16 ==> 0 <= g < TWO_16
  {
    if ids == Ids16 then ToUint16(groupId) else groupId
  }

  /** Table shape (row, 1) for wide lookups and (row, col) for deep ones. */
  function TableShape(width: Width, item: GroupConfigItem): (shape: seq<int>)
    ensures |shape| == 2 && shape[0] == item.embeddingRow
    ensures shape[1] == if width == Wide then 1 else item.embeddingCol
  {
    [item.embeddingRow, if width == Wide then 1 else item.embeddingCol]
  }

  /** Wide tables start at zero, deep tables from a normal distribution. */
  function TableInit(width: Width): Initializer
  {
    if width == Wide then InitZeros else InitRandn
  }

  function TableTensorType(sparse: bool): TensorType
  {
    if sparse then Srm else Tsr
  }

  function PerGroupKind(ids: IdWidth): LookupKind
  {
    if ids == Ids16 then GroupLookup16 else GroupLookup18
  }

  function SharedKind(ids: IdWidth): LookupKind
  {
    if ids == Ids16 then GroupLookup16Shared else GroupLookup18Shared
  }

  /**
    * Wide/DeepGroupEmbeddingLookup and Wide/DeepGroup18EmbeddingLookup: one
    * table per item, named prefix + "W" + the id passed to the lookup. X must
    * have rank 2 and items must not be empty.
    */
  method GroupEmbeddingLookup(width: Width, ids: IdWidth, prefix: string, x: Node, xShape: seq<int>,
                              items: seq<GroupConfigItem>, sparse: bool, needGrad: bool)
    returns (r: Outcome<Node>)
    ensures r.Returned? <==> |xShape| == 2 && items != []
    ensures r.Returned? ==>
      && r.value.Lookup? && r.value.kind == PerGroupKind(ids) && r.value.x == x
      && |r.value.tables| == |items| && |r.value.groupIds| == |items|
      && forall i :: 0 <= i < |items| ==>
           && r.value.groupIds[i] == LookupGroupId(ids, items[i].groupId)
           && r.value.tables[i] == Variable(prefix + "W" + IntToString(r.value.groupIds[i]), TableShape(width, items[i]),
                                            TableTensorType(sparse), TableInit(width), needGrad)
  {
    if |xShape| != 2 || items == [] {
      return Threw;
    }
    var tables: seq<Node> := [];
    var groupIds: seq<int> := [];
    var tensorType := TableTensorType(sparse);
    for i := 0 to |items|
      invariant |tables| == i && |groupIds| == i
      invariant forall j :: 0 <= j < i ==>
        && groupIds[j] == LookupGroupId(ids, items[j].groupId)
        && tables[j] == Variable(prefix + "W" + IntToString(groupIds[j]), TableShape(width, items[j]),
                                 TableTensorType(sparse), TableInit(width), needGrad)
    {
      var g := LookupGroupId(ids, items[i].groupId);
      groupIds := groupIds + [g];
      tables := tables + [Variable(prefix + "W" + IntToString(g), TableShape(width, items[i]), tensorType, TableInit(width), needGrad)];
    }
    var kind := PerGroupKind(ids);
    return Returned(Lookup(kind, x, tables, groupIds));
  }

  /**
    * The "2" variants: one table prefix + "W" shared by all groups, shaped
    * from the first item. X must have rank 2 and items must form an FM
    * configuration (non-empty, one col for all).
    */
  method SharedGroupEmbeddingLookup(width: Width, ids: IdWidth, prefix: string, x: Node, xShape: seq<int>,
                                    items: seq<GroupConfigItem>, sparse: bool, needGrad: bool)
    returns (r: Outcome<Node>)
    ensures r.Returned? <==> |xShape| == 2 && IsFM(items)
    ensures r.Returned? ==>
      && r.value.Lookup? && r.value.kind == SharedKind(ids) && r.value.x == x
      && r.value.tables == [Variable(prefix + "W", TableShape(width, items[0]), TableTensorType(sparse), TableInit(width), needGrad)]
      && |r.value.groupIds| == |items|
      && forall i :: 0 <= i < |items| ==> r.value.groupIds[i] == LookupGroupId(ids, items[i].groupId)
  {
    if |xShape| != 2 || items == [] {
      return Threw;
    }
    var fm := IsFMGroupConfig(items);
    if !fm {
      return Threw;
    }
    var groupIds: seq<int> := [];
    for i := 0 to |items|
      invariant |groupIds| == i
      invariant forall j :: 0 <= j < i ==> groupIds[j] == LookupGroupId(ids, items[j].groupId)
    {
      groupIds := groupIds + [LookupGroupId(ids, items[i].groupId)];
    }
    var tensorType := TableTensorType(sparse);
    var table := Variable(prefix + "W", TableShape(width, items[0]), tensorType, TableInit(width), needGrad);
    var kind := SharedKind(ids);
    return Returned(Lookup(kind, x, [table], groupIds));
  }

  /**
    * For a valid item the "18" family passes the group id through unchanged;
    * the plain family does so only for an id that fits in 16 bits.
    */
  lemma LookupGroupIdOfValid(ids: IdWidth, item: GroupConfigItem)
    requires ValidItem(item)
    requires ids == Ids16 ==> item.groupId < TWO_16
    ensures LookupGroupId(ids, item.groupId) == item.groupId
  {
  }

  /**
    * In a valid configuration the per-group tables get pairwise distinct names
    * and ids: always in the "18" family, and in the plain family when every id
    * fits in 16 bits.
    */
  lemma TableNamesDistinct(ids: IdWidth, prefix: string, items: seq<GroupConfigItem>, i: nat, j: nat)
    requires ValidConfig(items) && i < j < |items|
    requires ids == Ids16 ==> forall k :: 0 <= k < |items| ==> items[k].groupId < TWO_16
    ensures LookupGroupId(ids, items[i].groupId) != LookupGroupId(ids, items[j].groupId)
    ensures prefix + "W" + IntToString(LookupGroupId(ids, items[i].groupId))
         != prefix + "W" + IntToString(LookupGroupId(ids, items[j].groupId))
  {
    LookupGroupIdOfValid(ids, items[i]);
    LookupGroupIdOfValid(ids, items[j]);
    if prefix + "W" + IntToString(items[i].groupId) == prefix + "W" + IntToString(items[j].groupId) {
      NumberedNamesInjective(prefix + "W", items[i].groupId, items[j].groupId);
    }
  }

  /**
    * The plain family tells two ids apart only by their low 16 bits: ids
    * that agree modulo 2^16 (1 and 65537, say) reach the lookup as the same id
    * and name the same table. The "18" family tells every two ids apart.
    */
  lemma PlainLookupCollision(prefix: string, g1: int32, g2: int32)
    ensures LookupGroupId(Ids16, g1) == LookupGroupId(Ids16, g2) <==> g1 % TWO_16 == g2 % TWO_16
    ensures g1 % TWO_16 == g2 % TWO_16 ==>
      prefix + "W" + IntToString(LookupGroupId(Ids16, g1)) == prefix + "W" + IntToString(LookupGroupId(Ids16, g2))
    ensures LookupGroupId(Ids18, g1) == LookupGroupId(Ids18, g2) <==> g1 == g2
  {
  }

  /** The widths of the per-group tables, added up. */
  function TablesWidth(width: Width, items: seq<GroupConfigItem>): int
    decreases |items|
  {
    if items == [] then 0 else TablesWidth(width, items[..|items| - 1]) + TableShape(width, items[|items| - 1])[1]
  }

  /** Deep tables together are as wide as the total embedding col; wide tables one column per group. */
  lemma {:induction false} TablesWidthTotal(width: Width, items: seq<GroupConfigItem>)
    ensures width == Deep ==> TablesWidth(width, items) == SumCols(items)
    ensures width == Wide ==> TablesWidth(width, items) == |items|
    decreases |items|
  {
    if items != [] {
      TablesWidthTotal(width, items[..|items| - 1]);
    }
  }

  /** The shared table is as wide as every group's own table would be. */
  lemma SharedTableWidth(width: Width, items: seq<GroupConfigItem>, i: nat)
    requires IsFM(items) && i < |items|
    ensures TableShape(width, items[0])[1] == TableShape(width, items[i])[1]
  {
  }

  // ---------------------------------------------------------------------
  // Targets
  // ---------------------------------------------------------------------

  datatype TargetKind = BinaryClassification | MeanSquaredError | MeanAbsoluteError

  function LossOf(kind: TargetKind): LossKind
  {
    match kind
    case BinaryClassification => SigmoidBCELoss
    case MeanSquaredError => SquareErrorLoss
    case MeanAbsoluteError => AbsoluteErrorLoss
  }

  /** Name prefix + suffix, or "" for the overloads without a prefix. */
  function NodeName(prefix: Option<string>, suffix: string): string
  {
    if prefix.None? then "" else prefix.value + suffix
  }

  /** The per-instance loss of X against the one-column label Y. */
  function InstanceLoss(kind: TargetKind, prefix: Option<string>, x: Node): Node
  {
    Loss(LossOf(kind), NodeName(prefix, "L"), x, InstanceY(1))
  }

  /**
    * BinaryClassificationTarget, MSETarget and MAETarget, with and without a
    * prefix. X must have rank 2 and one column. The first node is the mean
    * loss, weighted by the instance weight W when has_w is set; the second is
    * the prediction: sigmoid of X for binary classification, X itself for
    * the two regression targets.
    */
  method Target(kind: TargetKind, prefix: Option<string>, x: Node, xShape: seq<int>, hasW: bool)
    returns (r: Outcome<(Node, Node)>)
    ensures r.Returned? <==> |xShape| == 2 && xShape[1] == 1
    ensures r.Returned? ==>
      var (loss, prediction) := r.value;
      && loss.ReduceMean?
      && (hasW ==> loss == ReduceMean(NodeName(prefix, "WM"), Mul(NodeName(prefix, "WL"), InstanceLoss(kind, prefix, x), InstanceW(1))))
      && (!hasW ==> loss == ReduceMean(NodeName(prefix, "M"), InstanceLoss(kind, prefix, x)))
      && (kind == BinaryClassification ==> prediction == Activate(SigmoidAct, NodeName(prefix, "P"), x))
      && (kind != BinaryClassification ==> prediction == x)
  {
    if |xShape| != 2 || xShape[1] != 1 {
      return Threw;
    }
    var y := InstanceY(1);
    var l := Loss(LossOf(kind), NodeName(prefix, "L"), x, y);
    var p := if kind == BinaryClassification then Activate(SigmoidAct, NodeName(prefix, "P"), x) else x;
    if hasW {
      var w := InstanceW(1);
      var wl := Mul(NodeName(prefix, "WL"), l, w);
      var wm := ReduceMean(NodeName(prefix, "WM"), wl);
      return Returned((wm, p));
    } else {
      var m := ReduceMean(NodeName(prefix, "M"), l);
      return Returned((m, p));
    }
  }

  /** With a prefix, the nodes a target creates carry pairwise distinct names. */
  lemma TargetNamesDistinct(prefix: string)
    ensures var names := [NodeName(Some(prefix), "L"), NodeName(Some(prefix), "P"), NodeName(Some(prefix), "WL"),
                          NodeName(Some(prefix), "WM"), NodeName(Some(prefix), "M")];
      forall i, j :: 0 <= i < j < |names| ==> names[i] != names[j]
  {
    var names := [NodeName(Some(prefix), "L"), NodeName(Some(prefix), "P"), NodeName(Some(prefix), "WL"),
                  NodeName(Some(prefix), "WM"), NodeName(Some(prefix), "M")];
    assert names[0][|prefix|] == 'L';
    assert names[1][|prefix|] == 'P';
    assert names[2][|prefix|] == 'W' && names[2][|prefix| + 1] == 'L';
    assert names[3][|prefix|] == 'W' && names[3][|prefix| + 1] == 'M';
    assert names[4][|prefix|] == 'M';
  }
}
