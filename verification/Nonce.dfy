/**
 Server-chosen DPoP nonces (dpop_nonce.go): an HMAC over the number of a time window,
 good in that window and in the next. The keyed HMAC is a parameter.
 */
module Nonce {
  import Clock

  /** Seconds since the epoch, rounded down: time.Time.Unix. */
  function Unix(t: int): int {
    t / Clock.SECOND
  }

  /** Division that truncates toward zero. */
  function TruncDiv(a: int, b: int): int
    requires b > 0
  {
    if a >= 0 then a / b else -(-a / b)
  }

  /** The window number at time t, for windows of this many seconds. */
  function WindowAt(t: int, width: int): int
    requires width > 0
  {
    TruncDiv(Unix(t), width)
  }

  function Digit(d: int): char
    requires 0 <= d < 10
  {
    (d + '0' as int) as char
  }

  function Digits(n: nat): string {
    if n < 10 then [Digit(n)] else Digits(n / 10) + [Digit(n % 10)]
  }

  /** strconv.FormatInt in base ten. */
  function FormatInt(n: int): string {
    if n < 0 then "-" + Digits(-n) else Digits(n)
  }

  /** The number that these decimal digits stand for. */
  function Number(s: string): int {
    if s == "" then 0 else 10 * Number(s[..|s| - 1]) + (s[|s| - 1] as int - '0' as int)
  }

  /** strconv.ParseInt in base ten, on what FormatInt writes. */
  function ParseInt(s: string): int {
    if s != "" && s[0] == '-' then -Number(s[1..]) else Number(s)
  }

  lemma {:induction false} DigitsRead(n: nat)
    ensures Number(Digits(n)) == n && Digits(n) != "" && Digits(n)[0] != '-'
  {
    if n >= 10 {
      DigitsRead(n / 10);
      assert Digits(n)[..|Digits(n)| - 1] == Digits(n / 10);
    } else {
      assert [Digit(n)][..0] == "";
    }
  }

  lemma FormatIntReads(n: int)
    ensures ParseInt(FormatInt(n)) == n
  {
    DigitsRead(if n < 0 then -n else n);
  }

  lemma FormatIntInjective(m: int, n: int)
    requires FormatInt(m) == FormatInt(n)
    ensures m == n
  {
    FormatIntReads(m);
    FormatIntReads(n);
  }

  /** A number of a window: a 64-bit integer. */
  predicate IsWindow(w: int) {
    -0x8000_0000_0000_0000 <= w <= 0x7FFF_FFFF_FFFF_FFFF
  }

  /** A clock reading whose seconds since the epoch, either way, are a 64-bit integer. */
  predicate IsTime(t: int) {
    -0x7FFF_FFFF_FFFF_FFFF <= Unix(t) <= 0x7FFF_FFFF_FFFF_FFFF
  }

  /** The assumption on the keyed HMAC: no two numbers of windows collide. */
  ghost predicate GoodMac(mac: string -> string) {
    forall m, n :: IsWindow(m) && IsWindow(n) && Make(mac, m) == Make(mac, n) ==> FormatInt(m) == FormatInt(n)
  }

  function Make(mac: string -> string, w: int): string {
    mac(FormatInt(w))
  }

  function Current(mac: string -> string, width: int, now: int): string
    requires width > 0
  {
    Make(mac, WindowAt(now, width))
  }

  predicate Valid(mac: string -> string, width: int, nonce: string, now: int)
    requires width > 0
  {
    var cur := WindowAt(now, width);
    nonce == Make(mac, cur) || nonce == Make(mac, cur - 1)
  }

  lemma WindowIsSmaller(t: int, width: int)
    requires width > 0 && IsTime(t)
    ensures IsWindow(WindowAt(t, width)) && IsWindow(WindowAt(t, width) - 1)
  {
    QuotientIsSmaller(if Unix(t) >= 0 then Unix(t) else -Unix(t), width);
  }

  lemma QuotientIsSmaller(a: nat, width: int)
    requires width > 0
    ensures 0 <= a / width <= a
  {
    var q := a / width;
    assert a == q * width + a % width;
    if q > 0 {
      assert q * width >= q by {
        MulAtLeast(width, q);
      }
    }
  }

  /** A nonce is good in the window it was issued in and in the next, and in no other. */
  lemma AcceptedIff(mac: string -> string, width: int, issued: int, now: int)
    requires width > 0 && GoodMac(mac) && IsTime(issued) && IsTime(now)
    ensures Valid(mac, width, Current(mac, width, issued), now) <==>
            WindowAt(now, width) - WindowAt(issued, width) in {0, 1}
  {
    var w, cur := WindowAt(issued, width), WindowAt(now, width);
    WindowIsSmaller(issued, width);
    WindowIsSmaller(now, width);
    if Make(mac, w) == Make(mac, cur) {
      FormatIntInjective(w, cur);
    }
    if Make(mac, w) == Make(mac, cur - 1) {
      FormatIntInjective(w, cur - 1);
    }
  }

  lemma {:induction false} MulAtLeast(k: int, width: int)
    requires k >= 1 && width > 0
    ensures k * width >= width
  {
  }

  /** The quotient is the only number whose multiple lies within one width below a. */
  lemma Quotient(a: int, q: int, width: int)
    requires width > 0 && q * width <= a < q * width + width
    ensures a / width == q
  {
    var k := a / width - q;
    assert a == (a / width) * width + a % width;
    assert k * width == (a / width) * width - q * width;
    assert -width < k * width < width;
    if k >= 1 {
      MulAtLeast(k, width);
    } else if k <= -1 {
      MulAtLeast(-k, width);
    }
  }

  lemma QuotientShift(a: int, n: int, width: int)
    requires width > 0
    ensures (a + n * width) / width == a / width + n
  {
    assert a == (a / width) * width + a % width;
    assert (a / width + n) * width == (a / width) * width + n * width;
    Quotient(a + n * width, a / width + n, width);
  }

  lemma QuotientMonotone(a: int, b: int, width: int)
    requires width > 0 && a <= b
    ensures a / width <= b / width
  {
    var k := a / width - b / width;
    assert a == (a / width) * width + a % width && b == (b / width) * width + b % width;
    assert k * width == (a / width) * width - (b / width) * width;
    if k >= 1 {
      MulAtLeast(k, width);
    }
  }

  lemma QuotientBounds(a: int, b: int, width: int)
    requires width > 0
    ensures a <= b ==> a / width <= b / width
    ensures b <= a + width ==> b / width <= a / width + 1
    ensures b >= a + 2 * width ==> b / width >= a / width + 2
  {
    QuotientShift(a, 1, width);
    QuotientShift(a, 2, width);
    if a <= b { QuotientMonotone(a, b, width); }
    if b <= a + width { QuotientMonotone(b, a + 1 * width, width); }
    if b >= a + 2 * width { QuotientMonotone(a + 2 * width, b, width); }
  }

  /** In its own window and in the next a nonce is good whatever the HMAC. */
  lemma AcceptedIn(mac: string -> string, width: int, issued: int, now: int)
    requires width > 0 && WindowAt(now, width) - WindowAt(issued, width) in {0, 1}
    ensures Valid(mac, width, Current(mac, width, issued), now)
  {
  }

  /** For clocks past the epoch, a nonce is good for at least one window's length. */
  lemma LastsOneWindow(mac: string -> string, width: int, issued: int, now: int)
    requires width > 0 && 0 <= issued <= now <= issued + width * Clock.SECOND
    ensures Valid(mac, width, Current(mac, width, issued), now)
  {
    QuotientBounds(Unix(issued), Unix(now), width);
    UnixShift(issued, width);
    UnixMonotone(issued, now);
    UnixMonotone(now, issued + width * Clock.SECOND);
    AcceptedIn(mac, width, issued, now);
  }

  /** For clocks past the epoch, a nonce is never good for two, nor to a clock in an earlier window. */
  lemma Lifetime(mac: string -> string, width: int, issued: int, now: int)
    requires width > 0 && GoodMac(mac) && IsTime(issued) && IsTime(now) && issued >= 0 && now >= 0
    ensures now >= issued + 2 * width * Clock.SECOND ==> !Valid(mac, width, Current(mac, width, issued), now)
    ensures WindowAt(issued, width) > WindowAt(now, width) ==> !Valid(mac, width, Current(mac, width, issued), now)
  {
    AcceptedIff(mac, width, issued, now);
    QuotientBounds(Unix(issued), Unix(now), width);
    UnixShift(issued, 2 * width);
    UnixMonotone(issued, now);
    UnixMonotone(issued + 2 * width * Clock.SECOND, now);
  }

  lemma UnixShift(t: int, seconds: int)
    ensures Unix(t + seconds * Clock.SECOND) == Unix(t) + seconds
  {
  }

  lemma UnixMonotone(t: int, u: int)
    ensures t <= u ==> Unix(t) <= Unix(u)
  {
  }

  /** Before the epoch the window around zero is twice as wide, so a nonce can outlive two windows. */
  lemma LongerBeforeEpoch(mac: string -> string)
    ensures Valid(mac, 300, Current(mac, 300, -299 * Clock.SECOND), 599 * Clock.SECOND)
  {
    AcceptedIn(mac, 300, -299 * Clock.SECOND, 599 * Clock.SECOND);
  }
}
