/**
 * The maze screen (screens/maze.rs): a search that explores a generated
 * maze one field per frame. The frontier is a double-ended queue that `draw`
 * pops from the front and pushes newly found neighbours onto the front, so
 * the search runs depth first. `visited` maps each explored field to the
 * direction it was entered from, and `done` is set once the goal has been
 * explored; the frame after that generates a new maze.
 *
 * The generator is not modelled: a maze is an abstract set of fields with a
 * passage relation, and `reset` receives the freshly generated layout as a
 * parameter. The random order in which `draw` tries the four directions is a
 * parameter too.
 */
module Maze {
  import opened Options

  datatype Coord = Coord(x: int, y: int)

  datatype Dir = North | East | South | West

  function Opposite(d: Dir): (r: Dir)
    ensures r != d
  {
    match d
    case North => South
    case East => West
    case South => North
    case West => East
  }

  /** The neighbouring coordinate in direction `d`; north is towards smaller `y`. */
  function Next(c: Coord, d: Dir): (r: Coord)
    ensures r != c
  {
    match d
    case North => Coord(c.x, c.y - 1)
    case East => Coord(c.x + 1, c.y)
    case South => Coord(c.x, c.y + 1)
    case West => Coord(c.x - 1, c.y)
  }

  /** Going `d` and then the opposite way comes back. */
  lemma NextOpposite(c: Coord, d: Dir)
    ensures Next(Next(c, d), Opposite(d)) == c
  {
  }

  /**
   * What the generator decides: which coordinates are fields, which field has
   * a passage in which direction, and where the search starts and ends.
   */
  datatype Layout = Layout(fields: set<Coord>, passages: set<(Coord, Dir)>, start: Coord, goal: Coord)

  /** A maze of a fixed size with some layout. */
  datatype Maze = Maze(width: nat, height: nat, layout: Layout)

  /** A frontier entry: a coordinate to explore and the direction it is entered from. */
  type Entry = (Coord, Option<Dir>)

  /** Everything `MazeScreen` holds. */
  datatype MazeState = MazeState(maze: Maze, queue: seq<Entry>, visited: map<Coord, Option<Dir>>, done: bool)

  /** The state a new screen starts in, with the maze generated for it. */
  function InitialState(maze: Maze): (r: MazeState)
    ensures r.queue == [(maze.layout.start, None)] && r.visited == map[] && !r.done
    ensures Consistent(r)
  {
    MazeState(maze, [(maze.layout.start, None)], map[], false)
  }

  /**
   * `reset`: forget what was explored, take the new layout in the same size,
   * and queue its start behind whatever is still in the frontier.
   */
  function ResetState(st: MazeState, next: Layout): (r: MazeState)
    ensures r.visited == map[] && !r.done
    ensures r.maze.width == st.maze.width && r.maze.height == st.maze.height && r.maze.layout == next
    ensures |r.queue| == |st.queue| + 1 && r.queue[..|st.queue|] == st.queue
    ensures r.queue[|st.queue|] == (next.start, None)
  {
    MazeState(Maze(st.maze.width, st.maze.height, next), st.queue + [(next.start, None)], map[], false)
  }

  /** Whether exploring `c` pushes its neighbour in direction `d`. */
  predicate Opens(l: Layout, c: Coord, d: Dir, visited: map<Coord, Option<Dir>>)
  {
    (c, d) in l.passages && Next(c, d) !in visited
  }

  /**
   * The entries exploring `c` pushes onto the front of the frontier when the
   * directions are tried in `order`, front first: the last one pushed is the
   * first one popped.
   */
  function Pushed(l: Layout, c: Coord, order: seq<Dir>, visited: map<Coord, Option<Dir>>): (r: seq<Entry>)
    ensures |r| <= |order|
    ensures forall k :: 0 <= k < |r| ==> r[k].0 !in visited && r[k].1.Some?
    // each entry's entrance direction leads back to `c`
    ensures forall k :: 0 <= k < |r| ==> r[k].1.Some? && Next(r[k].0, r[k].1.value) == c
    decreases |order|
  {
    if |order| == 0 then []
    else
      var p := Pushed(l, c, order[..|order| - 1], visited);
      var d := order[|order| - 1];
      if Opens(l, c, d, visited) then
        NextOpposite(c, d);
        [(Next(c, d), Some(Opposite(d)))] + p
      else p
  }

  /** The check at the top of `draw`: reset a finished search, or notice that the goal was reached. */
  function Prepared(st: MazeState, next: Layout): (r: MazeState)
  {
    if st.done then ResetState(st, next)
    else if st.maze.layout.goal in st.visited then st.(done := true)
    else st
  }

  /** The exploration step of `draw`: pop one entry; if it is a field, visit it and push its new neighbours. */
  function Explored(st: MazeState, order: seq<Dir>): (r: MazeState)
  {
    if |st.queue| == 0 then st
    else
      var (c, wayIn) := st.queue[0];
      if c !in st.maze.layout.fields then st.(queue := st.queue[1..])
      else
        var visited := st.visited[c := wayIn];
        st.(queue := Pushed(st.maze.layout, c, order, visited) + st.queue[1..], visited := visited)
  }

  /** One call of `draw`; `next` is the layout a reset would generate. */
  function DrawState(st: MazeState, next: Layout, order: seq<Dir>): (r: MazeState)
    // the size never changes, and the layout only on a reset
    ensures r.maze.width == st.maze.width && r.maze.height == st.maze.height
    ensures r.maze.layout == if st.done then next else st.maze.layout
    // one entry is popped (or a reset's start appended) and at most one pushed per direction
    ensures |r.queue| <= |st.queue| + |order|
  {
    Explored(Prepared(st, next), order)
  }

  // ---------------------------------------------------------------------
  // Properties

  /**
   * Exactly the neighbours behind a passage that are not yet visited are
   * pushed, each entered from the opposite direction.
   */
  lemma {:induction false} PushedEntries(l: Layout, c: Coord, order: seq<Dir>, visited: map<Coord, Option<Dir>>, e: Entry)
    ensures e in Pushed(l, c, order, visited) <==>
      exists d :: d in order && Opens(l, c, d, visited) && e == (Next(c, d), Some(Opposite(d)))
    decreases |order|
  {
    if |order| > 0 {
      var init, d := order[..|order| - 1], order[|order| - 1];
      PushedEntries(l, c, init, visited, e);
      assert order == init + [d];
      if e in Pushed(l, c, order, visited) && !(e in Pushed(l, c, init, visited)) {
        assert d in order;
      }
      if exists d' :: d' in order && Opens(l, c, d', visited) && e == (Next(c, d'), Some(Opposite(d'))) {
        var d' :| d' in order && Opens(l, c, d', visited) && e == (Next(c, d'), Some(Opposite(d')));
        if d' != d {
          assert d' in init;
        }
      }
    }
  }

  /**
   * A draw pops at most one entry, from the front: what was behind it is still
   * the back of the frontier, and everything in front of it is newly pushed
   * and not yet visited.
   */
  lemma PopsAtMostOne(st: MazeState, next: Layout, order: seq<Dir>)
    ensures var p, r := Prepared(st, next), DrawState(st, next, order);
      if |p.queue| == 0 then r.queue == []
      else
        var k := |r.queue| - (|p.queue| - 1);
        0 <= k <= |order| && r.queue[k..] == p.queue[1..] &&
        forall j :: 0 <= j < k ==> r.queue[j].0 !in r.visited
  {
  }

  /**
   * The popped coordinate is entered in `visited` with its entrance direction
   * when it is a field of the maze; otherwise `visited` is left as it was.
   */
  lemma VisitsPopped(st: MazeState, next: Layout, order: seq<Dir>)
    ensures var p, r := Prepared(st, next), DrawState(st, next, order);
      && (|p.queue| == 0 ==> r.visited == p.visited)
      && (|p.queue| > 0 && p.queue[0].0 !in p.maze.layout.fields ==> r.visited == p.visited)
      && (|p.queue| > 0 && p.queue[0].0 in p.maze.layout.fields ==>
            r.visited == p.visited[p.queue[0].0 := p.queue[0].1])
  {
  }

  /** Until the search is reset, a draw only adds to the explored fields. */
  lemma VisitedOnlyGrows(st: MazeState, next: Layout, order: seq<Dir>)
    requires !st.done
    ensures st.visited.Keys <= DrawState(st, next, order).visited.Keys
    ensures DrawState(st, next, order).maze == st.maze
  {
  }

  /** The draw after the goal is first seen explored marks the search done; the draw after that resets it. */
  lemma DoneThenReset(st: MazeState, next: Layout, order: seq<Dir>)
    ensures !st.done && st.maze.layout.goal in st.visited ==> DrawState(st, next, order).done
    ensures !st.done && st.maze.layout.goal !in st.visited ==> !DrawState(st, next, order).done
    ensures st.done ==>
      var r := DrawState(st, next, order);
      && !r.done && r.maze == Maze(st.maze.width, st.maze.height, next)
      && |r.visited| <= 1
  {
    if st.done {
      var p := Prepared(st, next);
      if |p.queue| > 0 && p.queue[0].0 in p.maze.layout.fields {
        assert DrawState(st, next, order).visited.Keys == {p.queue[0].0};
      }
    }
  }

  /**
   * A reset keeps the old frontier, so the first draw after a finished search
   * explores the oldest stale entry in the new maze, not the new start, which
   * waits at the back of the queue.
   */
  lemma StaleEntryExploredFirst(st: MazeState, next: Layout, order: seq<Dir>)
    requires st.done && |st.queue| > 0 && st.queue[0].0 in next.fields
    ensures var r := DrawState(st, next, order);
      && r.visited == map[st.queue[0].0 := st.queue[0].1]
      && r.queue[|r.queue| - 1] == (next.start, None)
  {
  }

  /** Only fields of the current maze are ever explored. */
  ghost predicate Consistent(st: MazeState)
  {
    && st.visited.Keys <= st.maze.layout.fields
    && (st.done ==> st.maze.layout.goal in st.visited)
  }

  /**
   * Every explored coordinate is a field, and `done` is only ever set with
   * the goal explored; a draw and a reset keep both.
   */
  lemma DrawKeepsConsistent(st: MazeState, next: Layout, order: seq<Dir>)
    requires Consistent(st)
    ensures Consistent(DrawState(st, next, order))
    ensures Consistent(ResetState(st, next))
  {
  }

  // ---------------------------------------------------------------------
  // The screen object

  class MazeScreen {
    var maze: Maze
    var queue: seq<Entry>
    var visited: map<Coord, Option<Dir>>
    var done: bool

    function Snapshot(): MazeState
      reads this
    {
      MazeState(maze, queue, visited, done)
    }

    /** A screen over a generated maze, with only the start in the frontier. */
    constructor (maze: Maze)
      ensures Snapshot() == InitialState(maze)
    {
      this.maze := maze;
      queue := [(maze.layout.start, None)];
      visited := map[];
      done := false;
    }

    /** Starts over in `next`, a maze of the same size generated from a random seed. */
    method Reset(next: Layout)
      modifies this
      ensures Snapshot() == ResetState(old(Snapshot()), next)
    {
      visited := map[];
      done := false;
      maze := Maze(maze.width, maze.height, next);
      queue := queue + [(maze.layout.start, None)];
    }

    /** Turning the knob does nothing on this screen. */
    method Left()
      ensures Snapshot() == old(Snapshot())
    {
    }

    method Right()
      ensures Snapshot() == old(Snapshot())
    {
    }

    /** A click generates a new maze and starts over. */
    method Click(next: Layout)
      modifies this
      ensures Snapshot() == ResetState(old(Snapshot()), next)
    {
      Reset(next);
    }

    /**
     * The loop over the directions in `draw`: push every neighbour of `c`
     * behind a passage that is not yet visited onto the front of the frontier.
     */
    method PushOpenNeighbours(c: Coord, order: seq<Dir>)
      modifies this
      ensures queue == Pushed(maze.layout, c, order, visited) + old(queue)
      ensures maze == old(maze) && visited == old(visited) && done == old(done)
    {
      for i := 0 to |order|
        invariant maze == old(maze) && visited == old(visited) && done == old(done)
        invariant queue == Pushed(maze.layout, c, order[..i], visited) + old(queue)
      {
        assert order[..i + 1][..i] == order[..i];
        var d := order[i];
        if (c, d) in maze.layout.passages {
          var n := Next(c, d);
          if n !in visited {
            queue := [(n, Some(Opposite(d)))] + queue;
          }
        }
      }
      assert order[..|order|] == order;
    }

    /**
     * One frame: reset a finished search or notice the goal, then explore one
     * entry of the frontier, trying the directions in `order`.
     */
    method Draw(next: Layout, order: seq<Dir>)
      modifies this
      ensures Snapshot() == DrawState(old(Snapshot()), next, order)
    {
      if done {
        Reset(next);
      } else if maze.layout.goal in visited {
        done := true;
      }
      ghost var prepared := Snapshot();
      assert prepared == Prepared(old(Snapshot()), next);

      if |queue| > 0 {
        var (toExplore, wayIn) := queue[0];
        queue := queue[1..];
        if toExplore in maze.layout.fields {
          visited := visited[toExplore := wayIn];
          PushOpenNeighbours(toExplore, order);
          assert Snapshot() == Explored(prepared, order);
        }
      }
    }
  }
}
