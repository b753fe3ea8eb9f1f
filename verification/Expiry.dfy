/** Expiry times: the upload form counts days from now (web/upload.go), the edit form
    names a calendar day (web/admin.go). Times are nanoseconds since the Unix epoch in
    UTC; a calendar day is its number since the epoch. */
module Expiry {
  import opened Wrappers

  const HOUR := 3_600_000_000_000
  const DAY := 86_400_000_000_000
  const TWO63 := 0x8000_0000_0000_0000
  const TWO64 := 0x1_0000_0000_0000_0000

  /** A signed 64-bit integer wraps around. */
  function Int64(x: int): int {
    (x + TWO63) % TWO64 - TWO63
  }

  /** `time.Now().Add(time.Duration(days) * 24 * time.Hour)`, when a positive number of days is given. */
  function UploadExpiry(now: int, days: Option<int>): Option<int> {
    if days.Some? && days.value > 0 then Some(now + Int64(Int64(days.value * 24) * HOUR)) else None
  }

  /** `Track.Expired` */
  predicate Expired(expiresAt: Option<int>, now: int) {
    expiresAt.Some? && now > expiresAt.value
  }

  /** The day the edit form shows. */
  function FormDay(expiresAt: Option<int>): Option<int> {
    if expiresAt.None? then None else Some(expiresAt.value / DAY)
  }

  /** The expiry a submitted day is stored as: the end of that day. */
  function SubmittedExpiry(day: Option<int>): Option<int> {
    if day.None? then None else Some(day.value * DAY + DAY)
  }

  /** The days the form can name, 0000-01-01 to 9999-12-31: what it shows for any other day
      does not parse, and the request changes nothing. */
  const FIRST_DAY := -719528
  const LAST_DAY := 2932896

  predicate Nameable(day: Option<int>) {
    day.None? || FIRST_DAY <= day.value <= LAST_DAY
  }

  /** Opening the edit form and saving it unchanged. */
  function SavedOnce(expiresAt: Option<int>): Option<int> {
    var day := FormDay(expiresAt);
    if Nameable(day) then SubmittedExpiry(day) else expiresAt
  }

  function Resaved(expiresAt: Option<int>, n: nat): Option<int>
    decreases n
  {
    if n == 0 then expiresAt else Resaved(SavedOnce(expiresAt), n - 1)
  }

  /** The number of days asked for is honoured exactly up to 106751 days; from there on
      the multiplication overflows, for every larger number. */
  lemma UploadExpiryExactIff(now: int, days: int)
    requires 0 < days < TWO63
    ensures UploadExpiry(now, Some(days)) == Some(now + days * DAY) <==> days <= 106751
  {
  }

  /** One day more than that and a new upload is already expired. */
  lemma UploadExpiryOverflow(now: int)
    ensures Expired(UploadExpiry(now, Some(106752)), now)
  {
  }

  /** A track given a day in the form is expired exactly from the end of that day on,
      the midnight itself excluded. */
  lemma ShownThroughChosenDay(day: int, now: int)
    ensures Expired(SubmittedExpiry(Some(day)), now) <==> now / DAY > day && now != (day + 1) * DAY
  {
  }

  /** Saving the form unchanged moves the expiry: it keeps it only when there is none, or
      when it lies on a day the form cannot name. */
  lemma ResavingKeepsIff(expiresAt: Option<int>)
    ensures Resaved(expiresAt, 1) == expiresAt <==> expiresAt.None? || !Nameable(FormDay(expiresAt))
  {
    assert Resaved(expiresAt, 1) == SavedOnce(expiresAt);
  }

  lemma {:induction false} UnnameableStays(expiresAt: Option<int>, n: nat)
    requires !Nameable(FormDay(expiresAt))
    ensures Resaved(expiresAt, n) == expiresAt
    decreases n
  {
    if n > 0 {
      UnnameableStays(expiresAt, n - 1);
    }
  }

  /** After n saves the expiry is n days after the midnight it lies on or after, up to the
      midnight that ends the last day the form can name, where it stays; an expiry at
      midnight, which is what the form itself stores, moves n days until then. */
  lemma {:induction false} ResavingDrifts(t: int, n: nat)
    requires FIRST_DAY <= t / DAY <= LAST_DAY + 1
    ensures var day := if t / DAY + n <= LAST_DAY + 1 then t / DAY + n else LAST_DAY + 1;
            (n > 0 && t / DAY <= LAST_DAY) || t % DAY == 0 ==> Resaved(Some(t), n) == Some(day * DAY)
    decreases n
  {
    assert t == t / DAY * DAY + t % DAY;
    if t / DAY == LAST_DAY + 1 {
      UnnameableStays(Some(t), n);
    } else if n > 0 {
      var once := t / DAY * DAY + DAY;
      assert once == (t / DAY + 1) * DAY && once / DAY == t / DAY + 1 && once % DAY == 0;
      assert Resaved(Some(t), n) == Resaved(Some(once), n - 1);
      ResavingDrifts(once, n - 1);
    }
  }

  /** For every number of days the expiry is what was asked for, up to a multiple of 2^64
      nanoseconds, and less than 2^63 from now. */
  lemma UploadExpiryWraps(now: int, days: int)
    requires days > 0
    ensures var r := UploadExpiry(now, Some(days));
            && r.Some?
            && -0x8000_0000_0000_0000 <= r.value - now < 0x8000_0000_0000_0000
            && exists k :: r.value == now + days * 86_400_000_000_000 + k * 0x1_0000_0000_0000_0000
  {
    var hours := Int64(days * 24);
    var a := WrapOf(days * 24);
    var b := WrapOf(hours * HOUR);
    var k := a * HOUR + b;
    assert UploadExpiry(now, Some(days)).value == now + days * 86_400_000_000_000 + k * 0x1_0000_0000_0000_0000;
  }

  /** How many times a number wraps around. */
  function WrapOf(x: int): (k: int)
    ensures Int64(x) == x + k * TWO64
  {
    -((x + TWO63) / TWO64)
  }

  // ---------------------------------------------------------------- the form's calendar

  predicate LeapYear(y: nat) {
    y % 4 == 0 && (y % 100 != 0 || y % 400 == 0)
  }

  /** The days from the first of January of the year 0 to that of year `y`. */
  function DaysBefore(y: nat): nat {
    365 * y + (y + 3) / 4 - (y + 99) / 100 + (y + 399) / 400
  }

  lemma MoreFours(y: nat)
    ensures (y + 4) / 4 == (y + 3) / 4 + (if y % 4 == 0 then 1 else 0)
  {
  }

  lemma MoreHundreds(y: nat)
    ensures (y + 100) / 100 == (y + 99) / 100 + (if y % 100 == 0 then 1 else 0)
  {
  }

  lemma MoreFourHundreds(y: nat)
    ensures (y + 400) / 400 == (y + 399) / 400 + (if y % 400 == 0 then 1 else 0)
  {
  }

  lemma MultipleOf100(k: nat)
    ensures (400 * k) % 100 == 0
  {
    var q, r := (400 * k) / 100, (400 * k) % 100;
    assert 100 * (4 * k - q) == r && 0 <= r < 100;
  }

  lemma MultipleOf4(k: nat)
    ensures (100 * k) % 4 == 0
  {
    var q, r := (100 * k) / 4, (100 * k) % 4;
    assert 4 * (25 * k - q) == r && 0 <= r < 4;
  }

  lemma MultiplesOf400(y: nat)
    ensures y % 400 == 0 ==> y % 100 == 0
    ensures y % 100 == 0 ==> y % 4 == 0
  {
    if y % 400 == 0 {
      MultipleOf100(y / 400);
    }
    if y % 100 == 0 {
      MultipleOf4(y / 100);
    }
  }

  /** That is the calendar: a year has 366 days exactly when it is a leap year. */
  lemma YearLength(y: nat)
    ensures DaysBefore(0) == 0 && DaysBefore(y + 1) == DaysBefore(y) + if LeapYear(y) then 366 else 365
  {
    MoreFours(y);
    MoreHundreds(y);
    MoreFourHundreds(y);
    MultiplesOf400(y);
  }

  /** The days the form can name are those of the years 0 to 9999, counted from 1970. */
  lemma NameableYears(day: int)
    ensures Nameable(Some(day)) <==>
              DaysBefore(0) - DaysBefore(1970) <= day < DaysBefore(10000) - DaysBefore(1970)
  {
    assert DaysBefore(1970) == 719528 && DaysBefore(10000) == 3652425;
  }
}
