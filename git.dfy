/**
 * The commit record produced by the repository's git package, reconstructed from the
 * fields the analysers read (`Hash`, `Author`, `Date`, `Message`, `Branches`,
 * `ChangedFiles`, `RepoPath`), and the wall-clock timestamp it carries.
 */
module Git {
  type Month = m: int | 1 <= m <= 12 witness 1
  type Day = d: int | 1 <= d <= 31 witness 1
  type Hour = h: int | 0 <= h < 24
  type Minute = m: int | 0 <= m < 60
  type Second = s: int | 0 <= s < 60

  /** A timestamp as its wall-clock fields; `time.Time` never holds an hour outside 0..23. */
  datatype DateTime = DateTime(year: int, month: Month, day: Day, hour: Hour, minute: Minute, second: Second)

  /** Position of a timestamp on one line; every field is bounded except the year. */
  function Ordinal(d: DateTime): int
  {
    ((((d.year * 13 + d.month) * 32 + d.day) * 24 + d.hour) * 60 + d.minute) * 60 + d.second
  }

  /** `a.Before(b)`: lexicographic order on (year, month, day, hour, minute, second). */
  predicate Before(a: DateTime, b: DateTime)
  {
    Ordinal(a) < Ordinal(b)
  }

  /** `a.After(b)`. */
  predicate After(a: DateTime, b: DateTime)
  {
    Before(b, a)
  }

  lemma {:induction false} BeforeIsLexicographic(a: DateTime, b: DateTime)
    ensures Before(a, b) <==>
      (a.year < b.year) ||
      (a.year == b.year && a.month < b.month) ||
      (a.year == b.year && a.month == b.month && a.day < b.day) ||
      (a.year == b.year && a.month == b.month && a.day == b.day && a.hour < b.hour) ||
      (a.year == b.year && a.month == b.month && a.day == b.day && a.hour == b.hour && a.minute < b.minute) ||
      (a.year == b.year && a.month == b.month && a.day == b.day && a.hour == b.hour && a.minute == b.minute && a.second < b.second)
  {
    var a1, b1 := a.year * 13 + a.month, b.year * 13 + b.month;
    var a2, b2 := a1 * 32 + a.day, b1 * 32 + b.day;
    var a3, b3 := a2 * 24 + a.hour, b2 * 24 + b.hour;
    var a4, b4 := a3 * 60 + a.minute, b3 * 60 + b.minute;
    LexStep(a.year, a.month, b.year, b.month, 13);
    LexStep(a1, a.day, b1, b.day, 32);
    LexStep(a2, a.hour, b2, b.hour, 24);
    LexStep(a3, a.minute, b3, b.minute, 60);
    LexStep(a4, a.second, b4, b.second, 60);
    assert Before(a, b) <==> a4 < b4 || (a4 == b4 && a.second < b.second);
    assert a4 == b4 <==> a.year == b.year && a.month == b.month && a.day == b.day && a.hour == b.hour && a.minute == b.minute;
    assert a3 == b3 <==> a.year == b.year && a.month == b.month && a.day == b.day && a.hour == b.hour;
    assert a2 == b2 <==> a.year == b.year && a.month == b.month && a.day == b.day;
  }

  /** Multiples of a positive `k` at different factors lie at least `k` apart. */
  lemma Gap(x: int, y: int, k: int)
    requires x < y && 0 < k
    ensures x * k + k <= y * k
  {
    var d := y - x - 1;
    assert y * k == x * k + k + d * k;
    assert d * k >= 0;
  }

  /** A number written as `x * k + r` with a digit `r` below `k` compares by `x` first and then by `r`. */
  lemma LexStep(x: int, r: int, y: int, s: int, k: int)
    requires 0 <= r < k && 0 <= s < k
    ensures x * k + r < y * k + s <==> x < y || (x == y && r < s)
    ensures x * k + r == y * k + s <==> x == y && r == s
  {
    if x < y {
      Gap(x, y, k);
    } else if y < x {
      Gap(y, x, k);
    }
  }

  datatype CommitInfo = CommitInfo(
    hash: string,
    author: string,
    date: DateTime,
    message: string,
    branches: seq<string>,
    changedFiles: seq<string>,
    repoPath: string)

  /** The options the git package is called with: which repository, whose commits. */
  datatype GitOptions = GitOptions(repoPath: string, author: string)

  /** An inclusive `[from, to]` window of timestamps. */
  datatype TimeWindow = TimeWindow(from: DateTime, to: DateTime)
}
