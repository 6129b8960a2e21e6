/** The stored usage history as `add_usage_record` extends it, and the progress bar of
    `format_summary`. Reading and writing the JSON file, the clock and the float
    arithmetic (`round`, `remaining_gb`, `percent_used`) are not part of this model: the
    timestamps come in as text and the amounts stay the captured text. */
module History {

  /** One entry of the history file. */
  datatype UsageRecord = UsageRecord(
    scrapedAt: string,    // `datetime.now().isoformat()`
    weekEnding: string,   // `datetime.now().strftime("%Y-%m-%d")`
    usage: string,
    plan: string,
    cycleStart: string,
    cycleEnd: string)

  /** The list `load_history` returns, which `add_usage_record` appends to before
      `save_history` writes it back. */
  class UsageHistory {
    var records: seq<UsageRecord>

    /** The history as loaded: the file's list, or empty when there is no file. */
    constructor (loaded: seq<UsageRecord>)
      ensures records == loaded
    {
      records := loaded;
    }

    /** `history.append(record)`. */
    method Append(r: UsageRecord)
      modifies this
      ensures records == old(records) + [r]
    {
      records := records + [r];
    }
  }

  /** `add_usage_record`: builds the record for one scrape and appends it; the records
      already stored are kept, in order, in front of it. */
  method AddUsageRecord(h: UsageHistory, scrapedAt: string, weekEnding: string, usage: string, plan: string,
                        cycleStart: string, cycleEnd: string) returns (record: UsageRecord)
    modifies h
    ensures record == UsageRecord(scrapedAt, weekEnding, usage, plan, cycleStart, cycleEnd)
    ensures h.records == old(h.records) + [record]
  {
    record := UsageRecord(scrapedAt, weekEnding, usage, plan, cycleStart, cycleEnd);
    h.Append(record);
  }

  // ---------------------------------------------------------------------------
  // Progress bar

  const BarWidth: int := 30
  const FullCell: char := '\U{2588}'
  const EmptyCell: char := '\U{2591}'

  /** Python's `c * n`: `n` copies of `c`, none when `n` is zero or negative. */
  function Repeat(c: char, n: int): (r: string)
    ensures |r| == if n > 0 then n else 0
    ensures forall i :: 0 <= i < |r| ==> r[i] == c
    decreases n
  {
    if n <= 0 then [] else [c] + Repeat(c, n - 1)
  }

  /** `"█" * filled + "░" * (bar_width - filled)`. */
  function ProgressBar(filled: int): string {
    Repeat(FullCell, filled) + Repeat(EmptyCell, BarWidth - filled)
  }

  /** The bar is exactly 30 cells wide when `filled` is between 0 and 30, and longer
      otherwise (with more than 100% used it grows past the box). */
  lemma ProgressBarWidth(filled: int)
    ensures |ProgressBar(filled)| == BarWidth <==> 0 <= filled <= BarWidth
    ensures |ProgressBar(filled)| >= BarWidth
  {
  }

  /** The first `filled` cells are full and the rest empty. */
  lemma ProgressBarCells(filled: int, i: nat)
    requires i < |ProgressBar(filled)|
    ensures ProgressBar(filled)[i] == (if i < filled then FullCell else EmptyCell)
  {
    var full := Repeat(FullCell, filled);
    if i < |full| {
      assert ProgressBar(filled)[i] == full[i];
    } else {
      assert ProgressBar(filled)[i] == Repeat(EmptyCell, BarWidth - filled)[i - |full|];
    }
  }
}
