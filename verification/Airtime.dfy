/** LoRa time on air for the JP-safe profiles, in exact arithmetic with the source's upward roundings. */
module Airtime {
  import opened Wrappers

  const DIRECT_UPLINK_OVERHEAD := 14
  const RELAYED_UPLINK_OVERHEAD := 18

  datatype Profile = Profile(name: string, bandwidthKHz: int, spreadingFactor: int, totalPayloadCap: int)

  /** The least integer not below a / b. */
  function CeilDiv(a: int, b: int): int
    requires b > 0
  {
    -((-a) / b)
  }

  lemma CeilDivMonotone(a: int, c: int, b: int)
    requires b > 0 && a <= c
    ensures CeilDiv(a, b) <= CeilDiv(c, b)
  {
    QuotientMonotone(-c, -a, b);
  }

  lemma QuotientMonotone(a: int, c: int, b: int)
    requires b > 0 && a <= c
    ensures a / b <= c / b
  {
    var p, q := a / b, c / b;
    assert a == b * p + a % b && c == b * q + c % b;
    if p > q {
      ProductMonotone(q + 1, p, b);
      assert false;
    }
  }

  lemma ProductMonotone(x: int, y: int, k: int)
    requires x <= y && k >= 0
    ensures k * x <= k * y
  {
  }

  lemma ScaleMonotone(x: int, y: int, k: int)
    requires x <= y && k >= 0
    ensures x * k <= y * k
  {
    ProductMonotone(x, y, k);
    assert x * k == k * x && y * k == k * y;
  }

  function Pow2(n: nat): (r: nat)
    ensures r > 0
  {
    if n == 0 then 1 else 2 * Pow2(n - 1)
  }

  function Max(a: int, b: int): int { if a > b then a else b }

  /** Payload symbols: 8 plus five for each started block of the coded payload. */
  function PayloadSymbols(sf: int, lowDataRate: bool, bytes: int): int
    requires 6 <= sf <= 12
  {
    var numerator := 8 * bytes - 4 * sf + 28 + 16;
    var denominator := 4 * (sf - (if lowDataRate then 2 else 0));
    8 + Max(CeilDiv(numerator, denominator) * 5, 0)
  }

  /** `AirtimeMS`: preamble of 12.25 symbols and the payload, each symbol lasting 2^sf / bandwidth ms. */
  function AirtimeMS(profile: Profile, bytes: int): (r: Result<int>)
    ensures r.Ok? <==> profile.bandwidthKHz > 0 && 6 <= profile.spreadingFactor <= 12 && bytes >= 0
  {
    if profile.bandwidthKHz <= 0 then Err("invalid bandwidth")
    else if profile.spreadingFactor < 6 || profile.spreadingFactor > 12 then Err("invalid spreading factor")
    else if bytes < 0 then Err("payload bytes must be non-negative")
    else
      var lowDataRate := profile.spreadingFactor >= 11 && profile.bandwidthKHz == 125;
      var quarterSymbols := 49 + 4 * PayloadSymbols(profile.spreadingFactor, lowDataRate, bytes);
      Ok(CeilDiv(quarterSymbols * Pow2(profile.spreadingFactor), 4 * profile.bandwidthKHz))
  }

  lemma PayloadSymbolsMonotone(sf: int, lowDataRate: bool, a: int, b: int)
    requires 6 <= sf <= 12 && a <= b
    ensures PayloadSymbols(sf, lowDataRate, a) <= PayloadSymbols(sf, lowDataRate, b)
  {
    var denominator := 4 * (sf - (if lowDataRate then 2 else 0));
    CeilDivMonotone(8 * a - 4 * sf + 28 + 16, 8 * b - 4 * sf + 28 + 16, denominator);
  }

  /** A longer payload never takes less time. */
  lemma AirtimeMonotone(profile: Profile, a: int, b: int)
    requires AirtimeMS(profile, b).Ok? && 0 <= a <= b
    ensures AirtimeMS(profile, a).Ok? && AirtimeMS(profile, a).value <= AirtimeMS(profile, b).value
  {
    var sf := profile.spreadingFactor;
    var lowDataRate := sf >= 11 && profile.bandwidthKHz == 125;
    PayloadSymbolsMonotone(sf, lowDataRate, a, b);
    var p, q := 49 + 4 * PayloadSymbols(sf, lowDataRate, a), 49 + 4 * PayloadSymbols(sf, lowDataRate, b);
    ScaleMonotone(p, q, Pow2(sf));
    CeilDivMonotone(p * Pow2(sf), q * Pow2(sf), 4 * profile.bandwidthKHz);
  }

  lemma CeilDivCovers(a: int, b: int)
    requires b > 0
    ensures a <= b * CeilDiv(a, b)
  {
    assert -a == b * (-a / b) + -a % b;
  }

  /** A payload takes at least one quarter of a symbol per octet. */
  lemma SymbolsCoverPayload(sf: int, lowDataRate: bool, bytes: int)
    requires 6 <= sf <= 12 && 0 <= bytes
    ensures bytes <= 49 + 4 * PayloadSymbols(sf, lowDataRate, bytes)
  {
    var numerator := 8 * bytes - 4 * sf + 28 + 16;
    var denominator := 4 * (sf - (if lowDataRate then 2 else 0));
    var blocks := CeilDiv(numerator, denominator);
    CeilDivCovers(numerator, denominator);
    if blocks >= 0 {
      ProductMonotone(denominator, 48, blocks);
      assert denominator * blocks == blocks * denominator;
    } else {
      ProductMonotone(blocks, -1, denominator);
    }
  }

  lemma {:induction false} Pow2IsLarge(n: nat)
    requires 2 <= n
    ensures 4 <= Pow2(n)
  {
    if n == 2 {
      assert Pow2(1) == 2 * Pow2(0);
    } else {
      Pow2IsLarge(n - 1);
    }
  }

  lemma SharePerUnit(units: int, quarters: int, duration: int, bandwidth: int)
    requires 0 <= units <= quarters && 4 <= duration && 0 < bandwidth
    ensures units <= bandwidth * CeilDiv(quarters * duration, 4 * bandwidth)
  {
    var ms := CeilDiv(quarters * duration, 4 * bandwidth);
    CeilDivCovers(quarters * duration, 4 * bandwidth);
    ProductMonotone(4, duration, quarters);
    assert 4 * bandwidth * ms == 4 * (bandwidth * ms);
  }

  /** Airtime grows beyond every limit: each octet adds at least a fixed share of a millisecond. */
  lemma AirtimeUnbounded(profile: Profile, bytes: int)
    requires AirtimeMS(profile, bytes).Ok?
    ensures bytes <= profile.bandwidthKHz * AirtimeMS(profile, bytes).value
  {
    var sf, bandwidth := profile.spreadingFactor, profile.bandwidthKHz;
    var lowDataRate := sf >= 11 && bandwidth == 125;
    SymbolsCoverPayload(sf, lowDataRate, bytes);
    Pow2IsLarge(sf);
    SharePerUnit(bytes, 49 + 4 * PayloadSymbols(sf, lowDataRate, bytes), Pow2(sf), bandwidth);
  }

  lemma CeilDivIsLeast(a: int, b: int, n: int)
    requires b > 0
    ensures n == CeilDiv(a, b) <==> b * (n - 1) < a <= b * n
  {
    var c := CeilDiv(a, b);
    CeilDivCovers(a, b);
    assert b * (c - 1) < a by {
      assert -a == b * (-a / b) + -a % b;
      assert b * (c - 1) == b * c - b;
    }
    if n < c {
      ProductMonotone(n, c - 1, b);
    } else if n > c {
      ProductMonotone(c, n - 1, b);
    }
  }

  /** The number of payload symbols: 8, and 5 for each started block of 4(sf - 2 de) bits, de being 1 for spreading
      factors from 11 at 125 kHz; a coded payload of no or negative length starts no block. */
  ghost predicate IsSymbolCount(sf: int, slow: bool, bytes: int, symbols: int)
  {
    var bits, block := 8 * bytes - 4 * sf + 44, if slow then 4 * sf - 8 else 4 * sf;
    if bits <= 0 then symbols == 8 else exists n :: symbols == 8 + 5 * n && block * (n - 1) < bits <= block * n
  }

  /** The airtime in milliseconds is the least whole number that is not below the exact one: 12.25 preamble symbols
      and the payload symbols, each lasting 2^sf / bandwidth in kHz. */
  lemma AirtimeIsExact(profile: Profile, bytes: int, symbols: int)
    requires profile.bandwidthKHz > 0 && 6 <= profile.spreadingFactor <= 12 && bytes >= 0
    requires var slow := profile.spreadingFactor >= 11 && profile.bandwidthKHz == 125;
             IsSymbolCount(profile.spreadingFactor, slow, bytes, symbols)
    ensures AirtimeMS(profile, bytes).Ok?
    ensures var ms, scaled := AirtimeMS(profile, bytes).value, (49 + 4 * symbols) * Pow2(profile.spreadingFactor);
            4 * profile.bandwidthKHz * (ms - 1) < scaled <= 4 * profile.bandwidthKHz * ms
  {
    var sf := profile.spreadingFactor;
    var slow := sf >= 11 && profile.bandwidthKHz == 125;
    SymbolCountIsExact(sf, slow, bytes, symbols);
    var ms := AirtimeMS(profile, bytes).value;
    CeilDivIsLeast((49 + 4 * symbols) * Pow2(sf), 4 * profile.bandwidthKHz, ms);
  }

  lemma SymbolCountIsExact(sf: int, slow: bool, bytes: int, symbols: int)
    requires 6 <= sf <= 12 && IsSymbolCount(sf, slow, bytes, symbols)
    ensures PayloadSymbols(sf, slow, bytes) == symbols
  {
    var bits, block := 8 * bytes - 4 * sf + 44, if slow then 4 * sf - 8 else 4 * sf;
    if bits <= 0 {
      NoBlock(bits, block);
    } else {
      var n :| symbols == 8 + 5 * n && block * (n - 1) < bits <= block * n;
      CeilDivIsLeast(bits, block, n);
      PositiveBlocks(bits, block, n);
    }
  }

  lemma NoBlock(bits: int, block: int)
    requires bits <= 0 < block
    ensures CeilDiv(bits, block) <= 0
  {
    CeilDivMonotone(bits, 0, block);
  }

  lemma PositiveBlocks(bits: int, block: int, n: int)
    requires 0 < bits <= block * n && 0 < block
    ensures 0 < n
  {
    if n <= 0 {
      ProductMonotone(n, 0, block);
    }
  }

  lemma PowersOfTwo()
    ensures Pow2(9) == 512 && Pow2(10) == 1024
  {
    assert Pow2(2) == 4 && Pow2(4) == 16;
    assert Pow2(6) == 64 && Pow2(8) == 256;
  }

  /** Full packets of the two 125 kHz profiles of the artifacts: 24 octets at spreading factor 10 take 371 ms,
      48 octets at spreading factor 9 take 309 ms. */
  lemma FullPacketsOfTheProfiles()
    ensures AirtimeMS(Profile("JP125_LONG_SF10", 125, 10, 24), 24) == Ok(371)
    ensures AirtimeMS(Profile("JP125_BAL_SF9", 125, 9, 48), 48) == Ok(309)
  {
    PowersOfTwo();
  }

  /** The first profile of that name, as the lookups search the list. */
  function FindProfile(profiles: seq<Profile>, name: string): (r: Option<Profile>)
    ensures r.Some? ==> r.value in profiles && r.value.name == name
    ensures r.None? <==> forall p :: p in profiles ==> p.name != name
    decreases |profiles|
  {
    if profiles == [] then None
    else if profiles[0].name == name then Some(profiles[0])
    else FindProfile(profiles[1..], name)
  }
}
