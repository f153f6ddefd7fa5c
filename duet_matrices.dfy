/** Board generation for the two-player ("duet") variant of the word-guessing
    game: each player gets a board of `matSize` tiles on which their own green
    and black tiles are marked and every other tile is neutral, and neither
    player's marked tiles are marked on the other player's board. */
module DuetMatrices {
  import opened IndexLists

  /** What one player sees on one tile. */
  datatype Tile = Neutral | Black | Green

  const GreenAmountPerPlayer: int := 4
  const BlackAmountPerPlayer: int := 1
  const MatSize: int := 25

  /** `random.sample` refuses a sample larger than the list or of negative size. */
  datatype Error = InsufficientIndexes

  datatype Result<T> = Ok(value: T) | Err(error: Error)

  /** Draws `amount` values from distinct positions of `available` (in Python,
      `set(random.sample(available, amount))`), then removes each drawn value
      from the list in place. Which positions are drawn is left open: any
      `amount` of them may be. */
  method RandomlyChooseIndexes(available: IndexList, amount: int) returns (r: Result<set<int>>)
    modifies available
    ensures r.Ok? <==> 0 <= amount <= |old(available.items)|
    ensures r.Err? ==> available.items == old(available.items)
    ensures r.Ok? ==>
      && r.value <= Elements(old(available.items))
      && |r.value| <= amount
      && available.items == RemoveEach(old(available.items), r.value)
      && |available.items| == |old(available.items)| - |r.value|
    ensures r.Ok? && Distinct(old(available.items)) ==>
      && |r.value| == amount
      && available.items == Without(old(available.items), r.value)
      && Distinct(available.items)
      && Elements(available.items) == Elements(old(available.items)) - r.value
  {
    var items := available.items;
    if amount < 0 || amount > |items| {
      return Err(InsufficientIndexes);
    }
    // any `amount` positions of the list may be drawn, for instance the first ones
    DistinctSize(Indexes(amount));
    assert Elements(Indexes(amount)) <= Elements(Indexes(|items|));
    var positions :| positions <= Elements(Indexes(|items|)) && |positions| == amount;
    var sample := Sample(items, positions);
    var chosen := Elements(sample);
    SampledValues(items, positions);

    RemoveChosen(available, chosen, sample);
    RemoveEachSize(items, chosen);
    if Distinct(items) {
      RemoveEachOfDistinct(items, chosen);
      WithoutContents(items, chosen);
    }
    r := Ok(chosen);
  }

  /** The loop of `randomly_choose_indexes` that takes each chosen value out
      of the list with `list.remove`, visiting the set in whatever order it
      yields its elements; `order` lists the chosen values (repeats allowed)
      and only serves the proof. */
  method RemoveChosen(available: IndexList, chosen: set<int>, ghost order: seq<int>)
    requires chosen <= Elements(available.items)
    requires Elements(order) == chosen
    modifies available
    ensures available.items == RemoveEach(old(available.items), chosen)
  {
    ghost var items := available.items;
    var rest, removed := chosen, {};
    ghost var pending := order;
    RemoveEachNothing(items);
    while rest != {}
      invariant rest <= chosen && removed == chosen - rest
      invariant chosen <= Elements(items)
      invariant Elements(pending) == rest
      invariant available.items == RemoveEach(items, removed)
      decreases |rest|
    {
      ghost var next: int := if pending == [] then 0 else pending[0];
      assert next in rest by {
        ElementsSize(pending);
      }
      var i :| i in rest;
      assert i in items && i !in removed;
      RemoveEachStep(items, removed, i);
      available.Remove(i);
      WithoutContents(pending, {i});
      pending := Without(pending, {i});
      rest, removed := rest - {i}, removed + {i};
    }
    assert removed == chosen;
  }

  /** Board `mat` marks exactly the tiles of `black` as black, the other tiles
      of `green` as green, and every remaining tile as neutral. */
  ghost predicate Shows(mat: seq<Tile>, black: set<int>, green: set<int>) {
    forall i | 0 <= i < |mat| ::
      && (mat[i] == Black <==> i in black)
      && (mat[i] == Green <==> i !in black && i in green)
      && (mat[i] == Neutral <==> i !in black && i !in green)
  }

  /** Builds one player's board of `matSize` tiles, black winning over green
      where the two sets overlap; indexes outside the board are ignored. */
  method GenerateMat(black: set<int>, green: set<int>, matSize: int) returns (mat: seq<Tile>)
    ensures |mat| == if matSize < 0 then 0 else matSize
    ensures Shows(mat, black, green)
  {
    mat := [];
    var i := 0;
    while i < matSize
      invariant 0 <= i && (i <= matSize || i == 0)
      invariant |mat| == i
      invariant Shows(mat, black, green)
    {
      if i in black {
        mat := mat + [Black];
      } else if i in green {
        mat := mat + [Green];
      } else {
        mat := mat + [Neutral];
      }
      i := i + 1;
    }
  }

  /** The tiles of `mat` that show `t`. */
  function TilesShowing(mat: seq<Tile>, t: Tile): set<int> {
    set i | 0 <= i < |mat| && mat[i] == t
  }

  /** The number of tiles showing `t` is the number of occurrences of `t`. */
  lemma {:induction false} TileCount(mat: seq<Tile>, t: Tile)
    ensures multiset(mat)[t] == |TilesShowing(mat, t)|
    decreases |mat|
  {
    if mat != [] {
      var last := |mat| - 1;
      var init := mat[..last];
      TileCount(init, t);
      assert mat == init + [mat[last]];
      if mat[last] == t {
        assert TilesShowing(mat, t) == TilesShowing(init, t) + {last};
      } else {
        assert TilesShowing(mat, t) == TilesShowing(init, t);
      }
    }
  }

  /** Every tile shows one of the three categories. */
  lemma {:induction false} TileTotal(mat: seq<Tile>)
    ensures multiset(mat)[Black] + multiset(mat)[Green] + multiset(mat)[Neutral] == |mat|
    decreases |mat|
  {
    if mat != [] {
      var last := |mat| - 1;
      var before := multiset(mat[..last]);
      TileTotal(mat[..last]);
      assert mat == mat[..last] + [mat[last]];
      assert multiset(mat) == before + multiset{mat[last]};
      match mat[last]
      case Black =>
        assert multiset(mat)[Black] == before[Black] + 1;
        assert multiset(mat)[Green] == before[Green] && multiset(mat)[Neutral] == before[Neutral];
      case Green =>
        assert multiset(mat)[Green] == before[Green] + 1;
        assert multiset(mat)[Black] == before[Black] && multiset(mat)[Neutral] == before[Neutral];
      case Neutral =>
        assert multiset(mat)[Neutral] == before[Neutral] + 1;
        assert multiset(mat)[Black] == before[Black] && multiset(mat)[Green] == before[Green];
    }
  }

  /** A board built from disjoint black and green sets lying on the board has
      |black| black tiles, |green| green tiles and neutral tiles elsewhere. */
  lemma BoardCounts(mat: seq<Tile>, black: set<int>, green: set<int>)
    requires Shows(mat, black, green)
    requires black !! green
    requires forall i | i in black :: 0 <= i < |mat|
    requires forall i | i in green :: 0 <= i < |mat|
    ensures multiset(mat)[Black] == |black|
    ensures multiset(mat)[Green] == |green|
    ensures multiset(mat)[Neutral] == |mat| - |black| - |green|
  {
    TileCount(mat, Black);
    TileCount(mat, Green);
    TileTotal(mat);
    assert forall i :: i in TilesShowing(mat, Black) <==> i in black;
    assert TilesShowing(mat, Black) == black;
    assert forall i :: i in TilesShowing(mat, Green) <==> i in green;
    assert TilesShowing(mat, Green) == green;
  }

  /** The rule check of the game: boards of equal size where a tile marked
      green or black for one player is neutral for the other, both ways. */
  predicate TestMatrices(matrix1: seq<Tile>, matrix2: seq<Tile>) {
    && |matrix1| == |matrix2|
    && (forall i | 0 <= i < |matrix1| ::
          (matrix1[i] in {Green, Black} ==> matrix2[i] == Neutral)
          && (matrix2[i] in {Green, Black} ==> matrix1[i] == Neutral))
  }

  /** Two boards of one size pass the rule check exactly when no tile of the
      board is marked on both: one player's draws avoid the other's there. */
  lemma DisjointDrawsPassTest(
    mat1: seq<Tile>, black1: set<int>, green1: set<int>,
    mat2: seq<Tile>, black2: set<int>, green2: set<int>)
    requires Shows(mat1, black1, green1) && Shows(mat2, black2, green2)
    requires |mat1| == |mat2|
    ensures TestMatrices(mat1, mat2) <==>
      forall i | 0 <= i < |mat1| :: !(i in black1 + green1 && i in black2 + green2)
  {
    if TestMatrices(mat1, mat2) {
      forall i | 0 <= i < |mat1| ensures !(i in black1 + green1 && i in black2 + green2) {
        assert mat1[i] in {Green, Black} ==> mat2[i] == Neutral;
      }
    }
    if forall i | 0 <= i < |mat1| :: !(i in black1 + green1 && i in black2 + green2) {
      forall i | 0 <= i < |mat1|
        ensures (mat1[i] in {Green, Black} ==> mat2[i] == Neutral)
        ensures (mat2[i] in {Green, Black} ==> mat1[i] == Neutral)
      {
        assert !(i in black1 + green1 && i in black2 + green2);
      }
    }
  }

  /** Four successive draws, each from what the earlier ones left of one pool,
      are pairwise disjoint and all come from the pool. */
  lemma SuccessiveDraws(pool: set<int>, green1: set<int>, black1: set<int>, green2: set<int>, black2: set<int>)
    requires green1 <= pool
    requires black1 <= pool - green1
    requires green2 <= pool - green1 - black1
    requires black2 <= pool - green1 - black1 - green2
    ensures green1 !! black1 && green2 !! black2
    ensures (black1 + green1) !! (black2 + green2)
    ensures black1 + green1 + black2 + green2 <= pool
  {
  }

  /** Each player's board shows GreenAmountPerPlayer green tiles,
      BlackAmountPerPlayer black tiles and neutral tiles elsewhere. */
  ghost predicate PlayerBoard(mat: seq<Tile>) {
    && multiset(mat)[Green] == GreenAmountPerPlayer
    && multiset(mat)[Black] == BlackAmountPerPlayer
    && multiset(mat)[Neutral] == |mat| - GreenAmountPerPlayer - BlackAmountPerPlayer
  }

  /** Draws both players' green and black tiles from one shared list of free
      indexes, then builds both boards. Fails when the board is too small for
      the four draws. */
  method GetPlayerMatrices(matSize: int) returns (r: Result<(seq<Tile>, seq<Tile>)>)
    ensures r.Ok? <==> matSize >= 2 * (GreenAmountPerPlayer + BlackAmountPerPlayer)
    ensures r.Ok? ==> |r.value.0| == matSize && |r.value.1| == matSize
    ensures r.Ok? ==> TestMatrices(r.value.0, r.value.1)
    ensures r.Ok? ==> PlayerBoard(r.value.0) && PlayerBoard(r.value.1)
  {
    var available := new IndexList(Indexes(if matSize < 0 then 0 else matSize));
    ghost var n := |available.items|;
    ghost var pool := Elements(available.items);
    var drawn := RandomlyChooseIndexes(available, GreenAmountPerPlayer);
    if drawn.Err? {
      return Err(drawn.error);
    }
    var greenOne := drawn.value;
    assert Distinct(available.items) && |available.items| == n - 4;
    assert Elements(available.items) == pool - greenOne;
    drawn := RandomlyChooseIndexes(available, BlackAmountPerPlayer);
    if drawn.Err? {
      return Err(drawn.error);
    }
    var blackOne := drawn.value;
    assert Distinct(available.items) && |available.items| == n - 5;
    assert Elements(available.items) == pool - greenOne - blackOne;
    drawn := RandomlyChooseIndexes(available, GreenAmountPerPlayer);
    if drawn.Err? {
      return Err(drawn.error);
    }
    var greenTwo := drawn.value;
    assert Distinct(available.items) && |available.items| == n - 9;
    assert Elements(available.items) == pool - greenOne - blackOne - greenTwo;
    drawn := RandomlyChooseIndexes(available, BlackAmountPerPlayer);
    if drawn.Err? {
      return Err(drawn.error);
    }
    var blackTwo := drawn.value;
    var matOne := GenerateMat(blackOne, greenOne, matSize);
    var matTwo := GenerateMat(blackTwo, greenTwo, matSize);

    SuccessiveDraws(pool, greenOne, blackOne, greenTwo, blackTwo);
    BoardCounts(matOne, blackOne, greenOne);
    BoardCounts(matTwo, blackTwo, greenTwo);
    DisjointDrawsPassTest(matOne, blackOne, greenOne, matTwo, blackTwo, greenTwo);
    r := Ok((matOne, matTwo));
  }

  /** The boards the generator produces at the default size: 4 green, 1 black
      and 20 neutral tiles each, following the rules of the game. */
  method DefaultMatrices() returns (matrix1: seq<Tile>, matrix2: seq<Tile>)
    ensures |matrix1| == MatSize && |matrix2| == MatSize
    ensures TestMatrices(matrix1, matrix2)
    ensures multiset(matrix1)[Green] == 4 && multiset(matrix1)[Black] == 1
    ensures multiset(matrix1)[Neutral] == 20
    ensures multiset(matrix2)[Green] == 4 && multiset(matrix2)[Black] == 1
    ensures multiset(matrix2)[Neutral] == 20
  {
    var r := GetPlayerMatrices(MatSize);
    matrix1, matrix2 := r.value.0, r.value.1;
  }
}
