/**
 * scripts/process-transparent-avatars.py: the worklist flood fill that makes the background of a
 * picture transparent from its border inwards and feathers the edge it stops at.
 */
module FloodFill {
  datatype Pixel = Pixel(r: int, g: int, b: int, a: int)

  datatype Pos = Pos(x: int, y: int)

  datatype Image = Image(width: nat, height: nat, columns: seq<seq<Pixel>>) {
    predicate Valid() { |columns| == width && forall x :: 0 <= x < width ==> |columns[x]| == height }

    predicate Has(p: Pos) { 0 <= p.x < width && 0 <= p.y < height }

    function At(p: Pos): Pixel
      requires Valid() && Has(p)
    {
      columns[p.x][p.y]
    }
  }

  datatype Options = Options(isBlack: bool, tolerance: int)

  const CLEAR := Pixel(255, 255, 255, 0)

  function Max3(a: int, b: int, c: int): int { if a >= b && a >= c then a else if b >= c then b else c }

  function Min3(a: int, b: int, c: int): int { if a <= b && a <= c then a else if b <= c then b else c }

  predicate MatchesBackground(o: Options, p: Pixel) {
    if o.isBlack then Max3(p.r, p.g, p.b) <= o.tolerance else Min3(p.r, p.g, p.b) >= 255 - o.tolerance
  }

  predicate MatchesEdge(o: Options, p: Pixel) {
    !MatchesBackground(o, p) &&
    if o.isBlack then Max3(p.r, p.g, p.b) <= o.tolerance + 25 else Min3(p.r, p.g, p.b) >= 255 - o.tolerance - 25
  }

  /** How far a colour lies beyond the tolerance: 1 to 25 for an edge pixel. */
  function Excess(o: Options, p: Pixel): int {
    if o.isBlack then Max3(p.r, p.g, p.b) - o.tolerance else 255 - Min3(p.r, p.g, p.b) - o.tolerance
  }

  function Alpha(o: Options, p: Pixel): int {
    var alpha := Excess(o, p) * 255 / 25;
    if alpha > 255 then 255 else if alpha < 0 then 0 else alpha
  }

  function Feathered(o: Options, p: Pixel): Pixel { p.(a := Alpha(o, p)) }

  // ----- What the fill is for -----

  predicate Adjacent(p: Pos, q: Pos) {
    (p.x == q.x && (p.y == q.y + 1 || q.y == p.y + 1)) || (p.y == q.y && (p.x == q.x + 1 || q.x == p.x + 1))
  }

  predicate OnBorder(img: Image, p: Pos) {
    img.Has(p) && (p.x == 0 || p.x == img.width - 1 || p.y == 0 || p.y == img.height - 1)
  }

  predicate Background(o: Options, img: Image, p: Pos)
    requires img.Valid()
  {
    img.Has(p) && MatchesBackground(o, img.At(p))
  }

  predicate Edge(o: Options, img: Image, p: Pos)
    requires img.Valid()
  {
    img.Has(p) && MatchesEdge(o, img.At(p))
  }

  /** A 4-connected walk over background pixels that starts on the border. */
  ghost predicate IsWalk(o: Options, img: Image, walk: seq<Pos>)
    requires img.Valid()
  {
    && walk != [] && OnBorder(img, walk[0])
    && (forall k :: 0 <= k < |walk| ==> Background(o, img, walk[k]))
    && (forall k :: 0 < k < |walk| ==> Adjacent(walk[k - 1], walk[k]))
  }

  /** Joined to the border by background, judged on the colours of `img`. */
  ghost predicate Joined(o: Options, img: Image, p: Pos)
    requires img.Valid()
  {
    exists walk :: IsWalk(o, img, walk) && walk[|walk| - 1] == p
  }

  ghost predicate BesideJoined(o: Options, img: Image, p: Pos)
    requires img.Valid()
  {
    exists q :: Adjacent(q, p) && Joined(o, img, q)
  }

  /** What becomes of each pixel. */
  ghost function Filled(o: Options, img: Image, p: Pos): Pixel
    requires img.Valid() && img.Has(p)
  {
    if Joined(o, img, p) then CLEAR
    else if Edge(o, img, p) && BesideJoined(o, img, p) then Feathered(o, img.At(p))
    else img.At(p)
  }

  // ----- The same, channel by channel -----

  /** Every channel is no farther than `slack` beyond the tolerance from black, or from white. */
  predicate ChannelsWithin(o: Options, p: Pixel, slack: int) {
    if o.isBlack then p.r <= o.tolerance + slack && p.g <= o.tolerance + slack && p.b <= o.tolerance + slack
    else p.r >= 255 - o.tolerance - slack && p.g >= 255 - o.tolerance - slack && p.b >= 255 - o.tolerance - slack
  }

  /** Background is within the tolerance in every channel; an edge is so within 25 more, and is no background. */
  lemma MatchesByChannel(o: Options, p: Pixel)
    ensures MatchesBackground(o, p) <==> ChannelsWithin(o, p, 0)
    ensures MatchesEdge(o, p) <==> ChannelsWithin(o, p, 25) && !ChannelsWithin(o, p, 0)
  {
  }

  /** How far one channel lies beyond the tolerance. */
  function Beyond(o: Options, channel: int): int {
    if o.isBlack then channel - o.tolerance else 255 - o.tolerance - channel
  }

  /** The alpha of an edge is its farthest channel's share of 25, out of 255, rounded down. */
  lemma FeatherByChannel(o: Options, p: Pixel)
    requires ChannelsWithin(o, p, 25) && !ChannelsWithin(o, p, 0)
    ensures var q := Feathered(o, p);
      && q.r == p.r && q.g == p.g && q.b == p.b && 10 <= q.a <= 255
      && (forall v :: v in [p.r, p.g, p.b] ==> 255 * Beyond(o, v) < 25 * q.a + 25)
      && (exists v :: v in [p.r, p.g, p.b] && 25 * q.a <= 255 * Beyond(o, v))
  {
    var channels := [p.r, p.g, p.b];
    var n := if Beyond(o, p.r) == Excess(o, p) then 0 else if Beyond(o, p.g) == Excess(o, p) then 1 else 2;
    assert channels[n] in channels && Beyond(o, channels[n]) == Excess(o, p);
  }

  /** One step up, down, left or right. */
  lemma AdjacentIsOneStep(p: Pos, q: Pos)
    ensures Adjacent(p, q) <==> Distance(p.x, q.x) + Distance(p.y, q.y) == 1
  {
  }

  function Distance(a: int, b: int): nat { if a < b then b - a else a - b }

  /** The border is where a step leaves the picture. */
  lemma BorderIsBesideOutside(img: Image, p: Pos)
    requires img.Has(p)
    ensures OnBorder(img, p) <==> exists q :: Adjacent(p, q) && !img.Has(q)
  {
    if OnBorder(img, p) {
      var q := if p.x == 0 then Pos(-1, p.y) else if p.x == img.width - 1 then Pos(img.width, p.y)
               else if p.y == 0 then Pos(p.x, -1) else Pos(p.x, img.height);
      assert Adjacent(p, q) && !img.Has(q);
    }
  }

  /** The pixel was reached from the border over background alone, stepping from neighbour to neighbour. */
  ghost predicate IsReached(o: Options, img: Image, p: Pos)
    requires img.Valid()
  {
    exists walk: seq<Pos> ::
      && walk != [] && walk[|walk| - 1] == p && OnBorder(img, walk[0])
      && (forall k :: 0 <= k < |walk| ==> img.Has(walk[k]) && ChannelsWithin(o, img.At(walk[k]), 0))
      && (forall k :: 0 < k < |walk| ==> Adjacent(walk[k - 1], walk[k]))
  }

  lemma JoinedIsReached(o: Options, img: Image, p: Pos)
    requires img.Valid()
    ensures Joined(o, img, p) <==> IsReached(o, img, p)
  {
    forall q: Pixel ensures MatchesBackground(o, q) <==> ChannelsWithin(o, q, 0) { MatchesByChannel(o, q); }
    if Joined(o, img, p) {
      var walk :| IsWalk(o, img, walk) && walk[|walk| - 1] == p;
      assert forall k :: 0 <= k < |walk| ==> Background(o, img, walk[k]);
    }
    if IsReached(o, img, p) {
      var walk: seq<Pos> :|
        && walk != [] && walk[|walk| - 1] == p && OnBorder(img, walk[0])
        && (forall k :: 0 <= k < |walk| ==> img.Has(walk[k]) && ChannelsWithin(o, img.At(walk[k]), 0))
        && (forall k :: 0 < k < |walk| ==> Adjacent(walk[k - 1], walk[k]));
      assert IsWalk(o, img, walk);
    }
  }

  /**
   * What the fill leaves of a pixel: background reached from the border is invisible white; what is
   * beside such a pixel and within 25 more in every channel is feathered; all else is as it was, so
   * any pixel with one channel outside the band.
   */
  lemma FilledByChannel(o: Options, img: Image, p: Pos)
    requires img.Valid() && img.Has(p)
    ensures IsReached(o, img, p) ==> Filled(o, img, p) == Pixel(255, 255, 255, 0)
    ensures !IsReached(o, img, p) && !ChannelsWithin(o, img.At(p), 0) && ChannelsWithin(o, img.At(p), 25)
            && (exists q :: Adjacent(q, p) && IsReached(o, img, q)) ==>
            Filled(o, img, p) == Feathered(o, img.At(p))
    ensures !IsReached(o, img, p)
            && (!ChannelsWithin(o, img.At(p), 25) || ChannelsWithin(o, img.At(p), 0)
                || !exists q :: Adjacent(q, p) && IsReached(o, img, q)) ==>
            Filled(o, img, p) == img.At(p)
    ensures !ChannelsWithin(o, img.At(p), 25) ==> Filled(o, img, p) == img.At(p)
  {
    MatchesByChannel(o, img.At(p));
    forall q ensures Joined(o, img, q) <==> IsReached(o, img, q) { JoinedIsReached(o, img, q); }
    if Joined(o, img, p) { WalkEndsJoined(o, img, p); }
  }

  /** A feathered pixel keeps its colour, and is neither invisible nor out of range. */
  lemma FeatherIsGradual(o: Options, p: Pixel, q: Pixel)
    requires MatchesEdge(o, p)
    ensures 1 <= Excess(o, p) <= 25 && 10 <= Alpha(o, p) <= 255
    ensures Feathered(o, p).r == p.r && Feathered(o, p).g == p.g && Feathered(o, p).b == p.b
    ensures MatchesEdge(o, q) && Excess(o, p) < Excess(o, q) ==> Alpha(o, p) < Alpha(o, q)
  {
  }

  lemma WalkEndsJoined(o: Options, img: Image, p: Pos)
    requires img.Valid() && Joined(o, img, p)
    ensures Background(o, img, p)
  {
    var walk :| IsWalk(o, img, walk) && walk[|walk| - 1] == p;
    assert Background(o, img, walk[|walk| - 1]);
  }

  lemma BorderIsJoined(o: Options, img: Image, p: Pos)
    requires img.Valid() && OnBorder(img, p) && Background(o, img, p)
    ensures Joined(o, img, p)
  {
    assert IsWalk(o, img, [p]);
  }

  lemma NeighbourIsJoined(o: Options, img: Image, p: Pos, q: Pos)
    requires img.Valid() && Joined(o, img, p) && Adjacent(p, q) && Background(o, img, q)
    ensures Joined(o, img, q)
  {
    var walk :| IsWalk(o, img, walk) && walk[|walk| - 1] == p;
    var longer := walk + [q];
    assert forall k :: 0 < k < |longer| ==> Adjacent(longer[k - 1], longer[k]);
    assert IsWalk(o, img, longer) && longer[|longer| - 1] == q;
  }

  /** A set closed under background neighbours that holds the border's background holds every joined pixel. */
  lemma ClosedSetHoldsJoined(o: Options, img: Image, closed: set<Pos>, p: Pos)
    requires img.Valid()
    requires forall q :: OnBorder(img, q) && Background(o, img, q) ==> q in closed
    requires forall q, n :: q in closed && Adjacent(q, n) && Background(o, img, n) ==> n in closed
    requires Joined(o, img, p)
    ensures p in closed
  {
    var walk :| IsWalk(o, img, walk) && walk[|walk| - 1] == p;
    for k := 1 to |walk|
      invariant forall j :: 0 <= j < k ==> walk[j] in closed
    {
      assert Adjacent(walk[k - 1], walk[k]) && Background(o, img, walk[k]);
    }
  }

  // ----- The algorithm -----

  ghost function View(pixels: array2<Pixel>): (img: Image)
    reads pixels
    ensures img.Valid() && img.width == pixels.Length0 && img.height == pixels.Length1
    ensures forall p :: img.Has(p) ==> img.At(p) == pixels[p.x, p.y]
  {
    Image(pixels.Length0, pixels.Length1,
          seq(pixels.Length0, x requires 0 <= x < pixels.Length0 reads pixels =>
            seq(pixels.Length1, y requires 0 <= y < pixels.Length1 reads pixels => pixels[x, y])))
  }

  /** What is known of one pixel while the fill runs. */
  ghost predicate PixelSoFar(o: Options, img: Image, p: Pos, now: Pixel, visited: bool, queued: bool)
    requires img.Valid() && img.Has(p)
  {
    if !visited then now == img.At(p)
    else if Background(o, img, p) then queued || now == CLEAR
    else now == Feathered(o, img.At(p))
  }

  /** The arrays: `left` is exactly what `visited` has not marked, and every pixel is as far as it should be. */
  ghost predicate SoFar(o: Options, img: Image, pixels: array2<Pixel>, visited: array2<bool>, queue: seq<Pos>,
                        left: set<Pos>)
    requires img.Valid()
    reads pixels, visited
  {
    && img.width == pixels.Length0 == visited.Length0 && img.height == pixels.Length1 == visited.Length1
    && (forall p {:trigger visited[p.x, p.y]} :: img.Has(p) ==> (p in left <==> !visited[p.x, p.y]))
    && (forall p {:trigger pixels[p.x, p.y]} :: img.Has(p) ==>
          PixelSoFar(o, img, p, pixels[p.x, p.y], p !in left, p in queue))
  }

  /** The worklist: who is in it, and who may have been marked. */
  ghost predicate Sound(o: Options, img: Image, queue: seq<Pos>, left: set<Pos>)
    requires img.Valid()
  {
    && (forall p :: p in queue ==> Background(o, img, p) && p !in left)
    && (forall p :: p in left ==> img.Has(p))
    && (forall p :: Background(o, img, p) && p !in left ==> Joined(o, img, p))
    && (forall p :: img.Has(p) && p !in left && !Background(o, img, p) ==> Edge(o, img, p) && BesideJoined(o, img, p))
  }

  /** Every cleared position except `current` has had its neighbours looked at. */
  ghost predicate Expanded(o: Options, img: Image, queue: seq<Pos>, left: set<Pos>, current: set<Pos>)
    requires img.Valid()
  {
    forall p, q {:trigger Adjacent(p, q)} | Background(o, img, p) && p !in left && p !in queue && p !in current
      && Adjacent(p, q) ::
      SeenIfDark(o, img, left, q)
  }

  /** A position the fill has to mark has been marked. */
  ghost predicate SeenIfDark(o: Options, img: Image, left: set<Pos>, q: Pos)
    requires img.Valid()
  {
    Background(o, img, q) || Edge(o, img, q) ==> q !in left
  }

  /** Where the border loops have got to: they have looked at `seen`, and all they marked is queued. */
  ghost predicate Seeded(o: Options, img: Image, queue: seq<Pos>, left: set<Pos>, seen: set<Pos>)
    requires img.Valid()
  {
    && (forall q :: img.Has(q) && q !in left ==> q in queue)
    && (forall q :: q in seen && Background(o, img, q) ==> q !in left)
  }

  /** The body of the two border loops. */
  method Seed(o: Options, ghost img: Image, pixels: array2<Pixel>, visited: array2<bool>, queue: seq<Pos>,
              ghost left: set<Pos>, p: Pos, ghost seen: set<Pos>) returns (next: seq<Pos>, ghost rest: set<Pos>)
    requires img.Valid() && SoFar(o, img, pixels, visited, queue, left) && Sound(o, img, queue, left)
    requires OnBorder(img, p)
    requires Seeded(o, img, queue, left, seen)
    modifies visited
    ensures SoFar(o, img, pixels, visited, next, rest) && Sound(o, img, next, rest)
    ensures Seeded(o, img, next, rest, seen + {p})
  {
    next, rest := queue, left;
    var here := pixels[p.x, p.y];
    if MatchesBackground(o, here) && !visited[p.x, p.y] {
      BorderIsJoined(o, img, p);
      visited[p.x, p.y] := true;
      next := queue + [p];
      rest := left - {p};
    }
  }

  /** The body of the loop over the four directions. */
  method Look(o: Options, ghost img: Image, pixels: array2<Pixel>, visited: array2<bool>, queue: seq<Pos>,
              ghost left: set<Pos>, c: Pos, n: Pos) returns (next: seq<Pos>, ghost rest: set<Pos>)
    requires img.Valid() && SoFar(o, img, pixels, visited, queue, left) && Sound(o, img, queue, left)
    requires Joined(o, img, c) && Adjacent(c, n) && Expanded(o, img, queue, left, {c})
    modifies pixels, visited
    ensures SoFar(o, img, pixels, visited, next, rest) && Sound(o, img, next, rest)
    ensures Expanded(o, img, next, rest, {c}) && SeenIfDark(o, img, rest, n)
    ensures rest < left || (rest == left && next == queue)
  {
    next, rest := queue, left;
    if 0 <= n.x < pixels.Length0 && 0 <= n.y < pixels.Length1 && !visited[n.x, n.y] {
      assert img.Has(n) && n in left;
      var p := pixels[n.x, n.y];
      if MatchesBackground(o, p) {
        NeighbourIsJoined(o, img, c, n);
        visited[n.x, n.y] := true;
        next := queue + [n];
        rest := left - {n};
      } else if o.isBlack && Max3(p.r, p.g, p.b) <= o.tolerance + 25 {
        visited[n.x, n.y] := true;
        var alpha := (Max3(p.r, p.g, p.b) - o.tolerance) * 255 / 25;
        pixels[n.x, n.y] := p.(a := Max3(0, 0, Min3(255, 255, alpha)));
        rest := left - {n};
      } else if !o.isBlack && Min3(p.r, p.g, p.b) >= 255 - o.tolerance - 25 {
        visited[n.x, n.y] := true;
        var alpha := (255 - Min3(p.r, p.g, p.b) - o.tolerance) * 255 / 25;
        pixels[n.x, n.y] := p.(a := Max3(0, 0, Min3(255, 255, alpha)));
        rest := left - {n};
      }
    } else if 0 <= n.x < pixels.Length0 && 0 <= n.y < pixels.Length1 {
      assert visited[n.x, n.y];
    }
  }

  /** The four positions beside `c`, in the order the source looks at them. */
  function Beside(c: Pos, k: int): Pos
    requires 0 <= k < 4
  {
    if k == 0 then Pos(c.x - 1, c.y) else if k == 1 then Pos(c.x + 1, c.y)
    else if k == 2 then Pos(c.x, c.y - 1) else Pos(c.x, c.y + 1)
  }

  method LookAround(o: Options, ghost img: Image, pixels: array2<Pixel>, visited: array2<bool>, queue: seq<Pos>,
                    ghost left: set<Pos>, c: Pos) returns (next: seq<Pos>, ghost rest: set<Pos>)
    requires img.Valid() && SoFar(o, img, pixels, visited, queue, left) && Sound(o, img, queue, left)
    requires Joined(o, img, c) && Expanded(o, img, queue, left, {c})
    modifies pixels, visited
    ensures SoFar(o, img, pixels, visited, next, rest) && Sound(o, img, next, rest)
    ensures Expanded(o, img, next, rest, {c})
    ensures forall k :: 0 <= k < 4 ==> SeenIfDark(o, img, rest, Beside(c, k))
    ensures rest < left || (rest == left && next == queue)
  {
    next, rest := queue, left;
    for k := 0 to 4
      invariant SoFar(o, img, pixels, visited, next, rest) && Sound(o, img, next, rest)
      invariant Expanded(o, img, next, rest, {c})
      invariant forall j :: 0 <= j < k ==> SeenIfDark(o, img, rest, Beside(c, j))
      invariant rest < left || (rest == left && next == queue)
    {
      next, rest := Look(o, img, pixels, visited, next, rest, c, Beside(c, k));
    }
  }

  lemma CurrentIsExpanded(o: Options, img: Image, queue: seq<Pos>, left: set<Pos>, c: Pos)
    requires img.Valid() && Expanded(o, img, queue, left, {c})
    requires forall k :: 0 <= k < 4 ==> SeenIfDark(o, img, left, Beside(c, k))
    ensures Expanded(o, img, queue, left, {})
  {
    forall q | Adjacent(c, q) ensures SeenIfDark(o, img, left, q) {
      assert q == Beside(c, 0) || q == Beside(c, 1) || q == Beside(c, 2) || q == Beside(c, 3);
    }
  }

  /** One turn of the worklist loop: clear the first position and look around it. */
  method Expand(o: Options, ghost img: Image, pixels: array2<Pixel>, visited: array2<bool>, queue: seq<Pos>,
                ghost left: set<Pos>) returns (next: seq<Pos>, ghost rest: set<Pos>)
    requires img.Valid() && SoFar(o, img, pixels, visited, queue, left) && Sound(o, img, queue, left)
    requires queue != [] && Expanded(o, img, queue, left, {})
    modifies pixels, visited
    ensures SoFar(o, img, pixels, visited, next, rest) && Sound(o, img, next, rest)
    ensures Expanded(o, img, next, rest, {})
    ensures rest < left || (rest == left && |next| < |queue|)
  {
    var c := queue[0];
    assert c in queue;
    pixels[c.x, c.y] := CLEAR;
    assert forall q :: q in queue <==> q == c || q in queue[1..];
    next, rest := LookAround(o, img, pixels, visited, queue[1..], left, c);
    CurrentIsExpanded(o, img, next, rest, c);
  }

  /** The first border loop: top and bottom of every column. */
  method SeedColumns(o: Options, ghost img: Image, pixels: array2<Pixel>, visited: array2<bool>, ghost left: set<Pos>)
    returns (queue: seq<Pos>, ghost rest: set<Pos>, ghost seen: set<Pos>)
    requires img.Valid() && img.width > 0 && img.height > 0
    requires SoFar(o, img, pixels, visited, [], left) && Sound(o, img, [], left) && Seeded(o, img, [], left, {})
    modifies visited
    ensures SoFar(o, img, pixels, visited, queue, rest) && Sound(o, img, queue, rest)
    ensures Seeded(o, img, queue, rest, seen)
    ensures forall x :: 0 <= x < img.width ==> EndsOfColumn(img, x) <= seen
  {
    queue, rest, seen := [], left, {};
    for x := 0 to pixels.Length0
      invariant SoFar(o, img, pixels, visited, queue, rest) && Sound(o, img, queue, rest)
      invariant Seeded(o, img, queue, rest, seen)
      invariant forall i :: 0 <= i < x ==> EndsOfColumn(img, i) <= seen
    {
      queue, rest := Seed(o, img, pixels, visited, queue, rest, Pos(x, 0), seen);
      queue, rest := Seed(o, img, pixels, visited, queue, rest, Pos(x, pixels.Length1 - 1), seen + {Pos(x, 0)});
      seen := seen + {Pos(x, 0)} + {Pos(x, pixels.Length1 - 1)};
    }
  }

  /** The second border loop: both ends of every row. */
  method SeedRows(o: Options, ghost img: Image, pixels: array2<Pixel>, visited: array2<bool>, seeds: seq<Pos>,
                  ghost left: set<Pos>, ghost columns: set<Pos>)
    returns (queue: seq<Pos>, ghost rest: set<Pos>, ghost seen: set<Pos>)
    requires img.Valid() && img.width > 0 && img.height > 0
    requires SoFar(o, img, pixels, visited, seeds, left) && Sound(o, img, seeds, left)
    requires Seeded(o, img, seeds, left, columns)
    modifies visited
    ensures SoFar(o, img, pixels, visited, queue, rest) && Sound(o, img, queue, rest)
    ensures Seeded(o, img, queue, rest, seen)
    ensures columns <= seen && forall y :: 0 <= y < img.height ==> EndsOfRow(img, y) <= seen
  {
    queue, rest, seen := seeds, left, columns;
    for y := 0 to pixels.Length1
      invariant SoFar(o, img, pixels, visited, queue, rest) && Sound(o, img, queue, rest)
      invariant Seeded(o, img, queue, rest, seen)
      invariant columns <= seen && forall i :: 0 <= i < y ==> EndsOfRow(img, i) <= seen
    {
      queue, rest := Seed(o, img, pixels, visited, queue, rest, Pos(0, y), seen);
      queue, rest := Seed(o, img, pixels, visited, queue, rest, Pos(pixels.Length0 - 1, y), seen + {Pos(0, y)});
      seen := seen + {Pos(0, y)} + {Pos(pixels.Length0 - 1, y)};
    }
  }

  ghost function EndsOfColumn(img: Image, x: int): set<Pos> { {Pos(x, 0), Pos(x, img.height - 1)} }

  ghost function EndsOfRow(img: Image, y: int): set<Pos> { {Pos(0, y), Pos(img.width - 1, y)} }

  lemma BorderIsSeen(img: Image, seen: set<Pos>, p: Pos)
    requires forall x :: 0 <= x < img.width ==> EndsOfColumn(img, x) <= seen
    requires forall y :: 0 <= y < img.height ==> EndsOfRow(img, y) <= seen
    requires OnBorder(img, p)
    ensures p in seen
  {
    assert EndsOfColumn(img, p.x) <= seen && EndsOfRow(img, p.y) <= seen;
    assert p == Pos(p.x, p.y);
    assert p in EndsOfColumn(img, p.x) || p in EndsOfRow(img, p.y);
  }

  ghost predicate BorderIsMarked(o: Options, img: Image, left: set<Pos>)
    requires img.Valid()
  {
    forall q :: OnBorder(img, q) && Background(o, img, q) ==> q !in left
  }

  /** When the worklist is empty what has been marked is exactly what had to be. */
  lemma FillIsComplete(o: Options, img: Image, left: set<Pos>, p: Pos)
    requires img.Valid() && Sound(o, img, [], left) && Expanded(o, img, [], left, {}) && img.Has(p)
    requires BorderIsMarked(o, img, left)
    ensures Background(o, img, p) ==> (p !in left <==> Joined(o, img, p))
    ensures !Background(o, img, p) ==> (p !in left <==> Edge(o, img, p) && BesideJoined(o, img, p))
  {
    var closed := set x, y | 0 <= x < img.width && 0 <= y < img.height
      && Pos(x, y) !in left && Background(o, img, Pos(x, y)) :: Pos(x, y);
    assert forall q :: q in closed <==> Background(o, img, q) && q !in left;
    forall q, n | q in closed && Adjacent(q, n) && Background(o, img, n) ensures n in closed {
      assert SeenIfDark(o, img, left, n);
    }
    if Joined(o, img, p) {
      ClosedSetHoldsJoined(o, img, closed, p);
    }
    if Edge(o, img, p) && BesideJoined(o, img, p) {
      var q :| Adjacent(q, p) && Joined(o, img, q);
      ClosedSetHoldsJoined(o, img, closed, q);
      assert SeenIfDark(o, img, left, p);
    }
  }

  /** Both border loops. */
  method SeedBorder(o: Options, ghost img: Image, pixels: array2<Pixel>, visited: array2<bool>, ghost left: set<Pos>)
    returns (queue: seq<Pos>, ghost rest: set<Pos>)
    requires img.Valid() && img.width > 0 && img.height > 0
    requires SoFar(o, img, pixels, visited, [], left) && Sound(o, img, [], left) && Seeded(o, img, [], left, {})
    modifies visited
    ensures SoFar(o, img, pixels, visited, queue, rest) && Sound(o, img, queue, rest)
    ensures Expanded(o, img, queue, rest, {}) && BorderIsMarked(o, img, rest)
  {
    ghost var seen;
    queue, rest, seen := SeedColumns(o, img, pixels, visited, left);
    queue, rest, seen := SeedRows(o, img, pixels, visited, queue, rest, seen);
    forall q | OnBorder(img, q) && Background(o, img, q) ensures q !in rest {
      BorderIsSeen(img, seen, q);
    }
  }

  lemma FilledWhenDone(o: Options, img: Image, pixels: array2<Pixel>, visited: array2<bool>, left: set<Pos>)
    requires img.Valid() && SoFar(o, img, pixels, visited, [], left) && Sound(o, img, [], left)
    requires Expanded(o, img, [], left, {}) && BorderIsMarked(o, img, left)
    ensures forall p :: img.Has(p) ==> pixels[p.x, p.y] == Filled(o, img, p)
  {
    forall p | img.Has(p) ensures pixels[p.x, p.y] == Filled(o, img, p) {
      FillIsComplete(o, img, left, p);
      if Joined(o, img, p) { WalkEndsJoined(o, img, p); }
    }
  }

  /**
   * `flood_fill_transparent_bg`, on a picture with at least one pixel: it terminates and leaves
   * every pixel as `Filled` says, judged on the colours the picture came with.
   */
  method Fill(o: Options, pixels: array2<Pixel>)
    requires pixels.Length0 > 0 && pixels.Length1 > 0
    modifies pixels
    ensures var img := old(View(pixels));
      forall p :: img.Has(p) ==> pixels[p.x, p.y] == Filled(o, img, p)
  {
    ghost var img := View(pixels);
    var visited := new bool[pixels.Length0, pixels.Length1]((_, _) => false);
    ghost var left := set x, y | 0 <= x < pixels.Length0 && 0 <= y < pixels.Length1 :: Pos(x, y);
    assert forall p :: img.Has(p) <==> p in left;
    var queue;
    queue, left := SeedBorder(o, img, pixels, visited, left);
    while queue != []
      invariant SoFar(o, img, pixels, visited, queue, left) && Sound(o, img, queue, left)
      invariant Expanded(o, img, queue, left, {}) && BorderIsMarked(o, img, left)
      decreases left, |queue|
    {
      queue, left := Expand(o, img, pixels, visited, queue, left);
    }
    FilledWhenDone(o, img, pixels, visited, left);
  }
}
