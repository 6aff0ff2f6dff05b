/**
 * The feedback panel (`src/components/ClickFeedback.tsx`): the text box of
 * the share message, with one `x` at the clicked cell, and the message tier
 * chosen from the distance of the last click.
 */
module ClickFeedback {
  import opened Wrappers
  import opened Geometry
  import opened GameContext

  /** Inner width and height of the share box. */
  const BoxWidth: nat := 13
  const BoxHeight: nat := 5
  /** The side of the game area the click coordinates range over. */
  const GridSize: nat := 1000

  const TopBorder: string := "┌─────────────┐"
  const BottomBorder: string := "└─────────────┘"

  /**
   * `Math.min(Math.max(Math.floor(v / 1000 * cells), 0), cells - 1)`: the
   * cell of a coordinate, clamped into the box. For a coordinate on the grid
   * no clamping happens and the result is the cell that contains it.
   */
  function Normalize(v: int, cells: nat): (n: int)
    requires cells > 0
    ensures 0 <= n < cells
    ensures 0 <= v < GridSize ==> n * GridSize <= v * cells < (n + 1) * GridSize
  {
    var raw := (v * cells) / GridSize;
    if raw < 0 then 0 else if raw > cells - 1 then cells - 1 else raw
  }

  /** The character at inner column `c` of inner row `r` when the `x` is at `(nx, ny)`. */
  function Cell(c: int, r: int, nx: int, ny: int): char {
    if c == nx && r == ny then 'x' else ' '
  }

  /** Row `r` of the box body: a `│`, the 13 cells, a `│`. */
  predicate BodyRow(row: string, r: int, nx: int, ny: int) {
    && |row| == BoxWidth + 2
    && row[0] == '│' && row[BoxWidth + 1] == '│'
    && forall c :: 1 <= c <= BoxWidth ==> row[c] == Cell(c - 1, r, nx, ny)
  }

  /** The seven lines of the box: top border, five body rows, bottom border. */
  predicate IsShareBox(rows: seq<string>, nx: int, ny: int) {
    && |rows| == BoxHeight + 2
    && rows[0] == TopBorder && rows[BoxHeight + 1] == BottomBorder
    && forall r :: 1 <= r <= BoxHeight ==> BodyRow(rows[r], r - 1, nx, ny)
  }

  /** The box built by `generateShareText` for a click at `(clickX, clickY)`. */
  method BuildShareBox(clickX: int, clickY: int) returns (rows: seq<string>)
    ensures IsShareBox(rows, Normalize(clickX, BoxWidth), Normalize(clickY, BoxHeight))
  {
    var nx := Normalize(clickX, BoxWidth);
    var ny := Normalize(clickY, BoxHeight);
    rows := [TopBorder];
    for y := 0 to BoxHeight
      invariant |rows| == y + 1 && rows[0] == TopBorder
      invariant forall r :: 1 <= r <= y ==> BodyRow(rows[r], r - 1, nx, ny)
    {
      var row := "│";
      for x := 0 to BoxWidth
        invariant |row| == x + 1 && row[0] == '│'
        invariant forall c :: 1 <= c <= x ==> row[c] == Cell(c - 1, y, nx, ny)
      {
        if x == nx && y == ny {
          row := row + "x";
        } else {
          row := row + " ";
        }
      }
      row := row + "│";
      rows := rows + [row];
    }
    rows := rows + [BottomBorder];
  }

  /** The number of times `ch` occurs in `s`. */
  function Occurrences(s: string, ch: char): nat {
    if s == [] then 0 else (if s[0] == ch then 1 else 0) + Occurrences(s[1..], ch)
  }

  /** The number of times `ch` occurs in all of `rows`. */
  function OccurrencesInRows(rows: seq<string>, ch: char): nat {
    if rows == [] then 0 else Occurrences(rows[0], ch) + OccurrencesInRows(rows[1..], ch)
  }

  lemma {:induction false} NoOccurrence(s: string, ch: char)
    requires forall i :: 0 <= i < |s| ==> s[i] != ch
    ensures Occurrences(s, ch) == 0
  {
    if s != [] {
      NoOccurrence(s[1..], ch);
    }
  }

  lemma {:induction false} SingleOccurrence(s: string, ch: char, k: int)
    requires 0 <= k < |s| && s[k] == ch
    requires forall i :: 0 <= i < |s| && i != k ==> s[i] != ch
    ensures Occurrences(s, ch) == 1
  {
    if k == 0 {
      NoOccurrence(s[1..], ch);
    } else {
      SingleOccurrence(s[1..], ch, k - 1);
    }
  }

  lemma {:induction false} SingleRowOccurrence(rows: seq<string>, ch: char, k: int)
    requires 0 <= k < |rows|
    requires forall i :: 0 <= i < |rows| ==> Occurrences(rows[i], ch) == if i == k then 1 else 0
    ensures OccurrencesInRows(rows, ch) == 1
  {
    if k == 0 {
      NoRowOccurrence(rows[1..], ch);
    } else {
      SingleRowOccurrence(rows[1..], ch, k - 1);
    }
  }

  lemma {:induction false} NoRowOccurrence(rows: seq<string>, ch: char)
    requires forall i :: 0 <= i < |rows| ==> Occurrences(rows[i], ch) == 0
    ensures OccurrencesInRows(rows, ch) == 0
  {
    if rows != [] {
      NoRowOccurrence(rows[1..], ch);
    }
  }

  lemma BorderHasNoX(border: string)
    requires border == TopBorder || border == BottomBorder
    ensures Occurrences(border, 'x') == 0
  {
    assert forall i :: 0 <= i < |border| ==> border[i] != 'x';
    NoOccurrence(border, 'x');
  }

  /** A body row holds one `x` if it is the marked row and none otherwise. */
  lemma BodyRowOccurrences(row: string, r: int, nx: int, ny: int)
    requires 0 <= nx < BoxWidth
    requires BodyRow(row, r, nx, ny)
    ensures Occurrences(row, 'x') == if r == ny then 1 else 0
  {
    if r == ny {
      SingleOccurrence(row, 'x', nx + 1);
    } else {
      NoOccurrence(row, 'x');
    }
  }

  /** Line `i` of a share box holds one `x` if it is the marked body row and none otherwise. */
  lemma LineOccurrences(rows: seq<string>, nx: int, ny: int, i: int)
    requires 0 <= nx < BoxWidth && 0 <= ny < BoxHeight
    requires IsShareBox(rows, nx, ny)
    requires 0 <= i < |rows|
    ensures Occurrences(rows[i], 'x') == if i == ny + 1 then 1 else 0
  {
    if i == 0 || i == BoxHeight + 1 {
      BorderHasNoX(rows[i]);
    } else {
      BodyRowOccurrences(rows[i], i - 1, nx, ny);
    }
  }

  /** Every line of a share box: one `x` in the marked body row, none elsewhere. */
  lemma LinesOccurrences(rows: seq<string>, nx: int, ny: int)
    requires 0 <= nx < BoxWidth && 0 <= ny < BoxHeight
    requires IsShareBox(rows, nx, ny)
    ensures forall i :: 0 <= i < |rows| ==> Occurrences(rows[i], 'x') == if i == ny + 1 then 1 else 0
  {
    forall i | 0 <= i < |rows|
      ensures Occurrences(rows[i], 'x') == if i == ny + 1 then 1 else 0
    {
      LineOccurrences(rows, nx, ny, i);
    }
  }

  /** A share box with its mark inside the body holds exactly one `x`, in body row `ny`, cell `nx`. */
  lemma ShareBoxHasOneX(rows: seq<string>, nx: int, ny: int)
    requires 0 <= nx < BoxWidth && 0 <= ny < BoxHeight
    requires IsShareBox(rows, nx, ny)
    ensures OccurrencesInRows(rows, 'x') == 1
    ensures rows[ny + 1][nx + 1] == 'x'
  {
    LinesOccurrences(rows, nx, ny);
    SingleRowOccurrence(rows, 'x', ny + 1);
    assert BodyRow(rows[ny + 1], ny, nx, ny);
  }

  /** The feedback tiers, closest first. */
  datatype Tier = Jackpot | IncrediblyClose | VeryClose | GettingCloser | NotBad | TryAgain {
    function Message(): string {
      match this
      case Jackpot => "JACKPOT! You found the exact pixel!"
      case IncrediblyClose => "Incredibly close!"
      case VeryClose => "Very close!"
      case GettingCloser => "Getting closer!"
      case NotBad => "Not bad!"
      case TryAgain => "Try again tomorrow!"
    }

    /** The position of the tier, 0 for the closest. */
    function Rank(): nat {
      match this
      case Jackpot => 0
      case IncrediblyClose => 1
      case VeryClose => 2
      case GettingCloser => 3
      case NotBad => 4
      case TryAgain => 5
    }
  }

  /** The distance thresholds the tiers are cut at: 0, 5, 20, 50, 100 pixels. */
  const Thresholds: seq<nat> := [0, 5, 20, 50, 100]

  /**
   * The tier of a click whose distance is `sqrt(squaredDistance)`: the
   * source's if/else chain, comparing the distance with each threshold
   * (`distance < t` exactly when `squaredDistance < t * t`).
   */
  function TierOf(squaredDistance: nat): (t: Tier)
    ensures t == Jackpot <==> squaredDistance == 0
  {
    if squaredDistance == 0 then Jackpot
    else if squaredDistance < 5 * 5 then IncrediblyClose
    else if squaredDistance < 20 * 20 then VeryClose
    else if squaredDistance < 50 * 50 then GettingCloser
    else if squaredDistance < 100 * 100 then NotBad
    else TryAgain
  }

  /**
   * Each tier but the first covers the distances from one threshold up to
   * the next: tier `k` is chosen exactly when the distance is at least the
   * `k - 1`-th threshold and below the `k`-th (the last tier has no upper end).
   */
  lemma TierBetweenThresholds(squaredDistance: nat)
    ensures var k := TierOf(squaredDistance).Rank();
      && (1 <= k ==> Thresholds[k - 1] * Thresholds[k - 1] <= squaredDistance)
      && (1 <= k <= 4 ==> squaredDistance < Thresholds[k] * Thresholds[k])
  {
  }

  /** A closer click never gets a farther tier. */
  lemma TierMonotone(d1: nat, d2: nat)
    requires d1 <= d2
    ensures TierOf(d1).Rank() <= TierOf(d2).Rank()
  {
  }

  /** What the panel shows: the distance rounded to whole pixels and the tier. */
  datatype Feedback = Feedback(roundedDistance: nat, tier: Tier)

  /** The panel renders nothing until a click has been registered and recorded. */
  function Render(hasClicked: bool, lastClick: Option<Click>): (r: Option<Feedback>)
    ensures r.Some? <==> hasClicked && lastClick.Some?
    ensures r.Some? ==> (r.value.tier == Jackpot <==> lastClick.value.squaredDistance == 0)
    ensures r.Some? ==> (r.value.roundedDistance == 0 <==> lastClick.value.squaredDistance == 0)
  {
    if !hasClicked || lastClick.None? then None
    else
      var d := lastClick.value.squaredDistance;
      Some(Feedback(RoundSqrt(d), TierOf(d)))
  }
}
