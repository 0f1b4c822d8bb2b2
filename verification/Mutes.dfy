/** Muting a user for a number of days (console.go) and asking whether the mute still holds (certfp.go). */
module Mutes {
  import opened Options
  import Rfc3339

  // Instants and durations are nanoseconds; a duration is an int64.
  const SECOND: int := 1_000_000_000
  const DAY: int := 86_400_000_000_000
  const INT64: int := 0x1_0000_0000_0000_0000
  const INT64_MAX: int := 0x7fff_ffff_ffff_ffff

  /** What the clock may show: an instant between the years 1653 and 8307. */
  type Instant = t: int | -10_000_000_000 * SECOND <= t <= 200_000_000_000 * SECOND

  // The most days whose nanoseconds still fit.
  const MAX_DAYS: int := 106751

  /** The field muted: empty, "permanent", or a time of whole seconds. */
  datatype Mute = NotMuted | Permanent | Until(second: int)

  /** The third word of the command, as strconv.Atoi reads it. */
  datatype Term = Forever | Days(days: int) | Garbage

  function Wrap(x: int): (w: int)
    ensures -INT64_MAX - 1 <= w <= INT64_MAX
    ensures (w - x) % INT64 == 0
  {
    (x + INT64_MAX + 1) % INT64 - INT64_MAX - 1
  }

  /** What the command stores, if it accepts the term; formatting drops the fraction of a second. */
  function Deadline(term: Term, now: int): Option<Mute> {
    match term
    case Forever => Some(Permanent)
    case Days(days) =>
      if 0 < days <= INT64_MAX then Some(Until((now + Wrap(DAY * days)) / SECOND)) else None
    case Garbage => None
  }

  /** Whether the mute holds at an instant. */
  predicate IsMuted(muted: Mute, now: int) {
    match muted
    case NotMuted => false
    case Permanent => true
    case Until(s) => s * SECOND - now > 0
  }

  /** Which terms the command accepts: "permanent", which holds for ever, and positive numbers. */
  lemma AcceptedTerms(term: Term, now: int, t: int)
    ensures Deadline(term, now).Some? <==> term.Forever? || (term.Days? && 0 < term.days <= 0x7fff_ffff_ffff_ffff)
    ensures term.Forever? ==> IsMuted(Deadline(term, now).value, t)
    ensures !IsMuted(NotMuted, t)
  {
  }

  lemma WrapInRange(x: int)
    ensures Wrap(x) == x <==> -INT64_MAX - 1 <= x <= INT64_MAX
  {
  }

  // Two instants a multiple of the int64 range apart do not fall into one second.
  lemma WrappedDeadlineDiffers(now: int, x: int)
    requires x > INT64_MAX
    ensures Wrap(x) < x
    ensures (now + Wrap(x)) / SECOND != (now + x) / SECOND
  {
    assert x - Wrap(x) >= INT64;
  }

  /** The stored deadline is the one asked for exactly when the number of days is at most 106751. */
  lemma DeadlineExact(days: int, now: int)
    requires 0 < days <= INT64_MAX
    ensures Deadline(Days(days), now) == Some(Until((now + DAY * days) / SECOND)) <==> days <= MAX_DAYS
  {
    WrapInRange(DAY * days);
    if days > MAX_DAYS {
      assert DAY * days >= DAY * (MAX_DAYS + 1);
      WrappedDeadlineDiffers(now, DAY * days);
    }
  }

  /** Up to 106751 days, the user stays muted from the command to the deadline, which comes less than a second early. */
  lemma MutedUntilDeadline(days: int, now: int, t: int)
    requires 0 < days <= MAX_DAYS
    ensures var d := Deadline(Days(days), now);
            && d.Some?
            && (t <= now + DAY * days - SECOND ==> IsMuted(d.value, t))
            && (t >= now + DAY * days ==> !IsMuted(d.value, t))
  {
    WrapInRange(DAY * days);
    var end := now + DAY * days;
    assert end - SECOND < end / SECOND * SECOND <= end;
  }

  /** The user is muted at every instant up to a second before the deadline asked for if and only if that is at most
      106751 days away. */
  lemma MutedAsAskedIff(days: int, now: int)
    requires 0 < days <= INT64_MAX
    ensures var d := Deadline(Days(days), now);
            && d.Some?
            && ((forall t :: now <= t <= now + DAY * days - SECOND ==> IsMuted(d.value, t)) <==> days <= MAX_DAYS)
  {
    var d, x := Deadline(Days(days), now).value, DAY * days;
    if days <= MAX_DAYS {
      forall t | now <= t <= now + x - SECOND ensures IsMuted(d, t) {
        MutedUntilDeadline(days, now, t);
      }
    } else {
      assert x >= DAY * (MAX_DAYS + 1) > INT64_MAX + SECOND;
      assert (now + Wrap(x)) / SECOND * SECOND <= now + Wrap(x);
      assert !IsMuted(d, now + x - SECOND);
    }
  }

  /** One day more and the duration is negative: the command reports success and mutes nobody, at that instant or
      ever after. */
  lemma OneDayTooMany(now: int, later: int)
    requires now <= later
    ensures var d := Deadline(Days(MAX_DAYS + 1), now);
            d.Some? && !IsMuted(d.value, later)
  {
    var w := Wrap(DAY * (MAX_DAYS + 1));
    assert w == DAY * (MAX_DAYS + 1) - INT64;
    assert (now + w) / SECOND * SECOND <= now + w;
  }

  // ---------- The stored text ----------

  const PERMANENTLYMUTED: string := "permanent"

  /** The deadline can be written as a time with a year of four digits. */
  predicate Storable(m: Mute, zone: Rfc3339.Zone) {
    m.Until? ==> Rfc3339.Writable(m.second, zone)
  }

  /** What is put in the field muted. */
  function MuteText(m: Mute, zone: Rfc3339.Zone): string
    requires Storable(m, zone)
  {
    match m
    case NotMuted => ""
    case Permanent => PERMANENTLYMUTED
    case Until(second) => Rfc3339.Format(second, zone)
  }

  /** What the field muted means; any other text is logged as a programming error and mutes nobody. */
  function ReadMute(text: string): Mute {
    if text == "" then NotMuted
    else if text == PERMANENTLYMUTED then Permanent
    else
      match Rfc3339.Parse(text)
      case Some(second) => Until(second)
      case None => NotMuted
  }

  /** Empty, "permanent" or a time that can be parsed. */
  predicate Readable(text: string) {
    text == "" || text == PERMANENTLYMUTED || Rfc3339.Parse(text).Some?
  }

  /** The mute that is read is the mute that was stored, and its text is always readable. */
  lemma MuteRoundTrip(m: Mute, zone: Rfc3339.Zone)
    requires Storable(m, zone)
    ensures Readable(MuteText(m, zone)) && ReadMute(MuteText(m, zone)) == m
  {
    hide Rfc3339.Parse, Rfc3339.Format, Rfc3339.Writable;
    if m.Until? {
      Rfc3339.TextRoundTrip(m.second, zone);
      assert |PERMANENTLYMUTED| < 20;
    }
  }

  /** A mute for ever is stored as a word. */
  lemma ForeverText(now: int, zone: Rfc3339.Zone)
    ensures Deadline(Forever, now) == Some(Permanent) && MuteText(Permanent, zone) == "permanent"
  {
  }

  /** Every deadline that the command computes can be stored, in any zone. */
  lemma DeadlinesAreStorable(term: Term, now: Instant, zone: Rfc3339.Zone)
    ensures Deadline(term, now).Some? ==> Storable(Deadline(term, now).value, zone)
  {
    assert Rfc3339.DaysBeforeYear(10000) == 3652425;
  }

  /** IsUserCurrentlyMuted. */
  method IsUserCurrentlyMuted(mutedValue: string, now: int) returns (muted: bool)
    ensures muted == IsMuted(ReadMute(mutedValue), now)
  {
    if mutedValue == "" {
      return false;
    }
    if mutedValue == PERMANENTLYMUTED {
      return true;
    }
    var unmuteTime := Rfc3339.Parse(mutedValue);
    if unmuteTime.None? {
      return false; // the branch logged as a programming error
    }
    var remaining := unmuteTime.value * SECOND - now;
    return remaining > 0;
  }
}
