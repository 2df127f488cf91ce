/** The 12-byte stream header: `send_header` of shim/src/lib.rs against `parse_header` of server/src/main.rs. */
module Header {
  import opened Bytes

  datatype AudioCfg = AudioCfg(rate: nat, channels: nat, format: nat)
  datatype Parsed = Rejected | Accepted(cfg: AudioCfg)

  const FORMAT_S16_LE: nat := 2
  const FORMAT_FLOAT_LE: nat := 14

  /** Low 16 bits, little-endian. */
  function Le16(x: nat): (b: seq<byte>)
    ensures |b| == 2
  {
    [x % 256, x / 256 % 256]
  }

  function FromLe16(lo: byte, hi: byte): nat {
    var l: int, h: int := lo, hi;
    l + 256 * h
  }

  /** Channels and format are cut to 16 bits on the wire. */
  function SendHeader(rate: nat, channels: nat, format: nat): (b: seq<byte>)
    ensures |b| == 12
  {
    Le32(rate) + Le16(channels) + Le16(format) + [0, 0, 0, 0]
  }

  function ParseHeader(b: seq<byte>): Parsed
    requires |b| == 12
  {
    var rate, ch, fmt := FromLe(b[0..4]), FromLe16(b[4], b[5]), FromLe16(b[6], b[7]);
    if rate == 0 || ch == 0 || ch > 8 then Rejected
    else if fmt != FORMAT_S16_LE && fmt != FORMAT_FLOAT_LE then Rejected
    else Accepted(AudioCfg(rate, ch, fmt))
  }

  lemma Le16RoundTrip(x: nat)
    ensures FromLe16(Le16(x)[0], Le16(x)[1]) == x % 65536
  {
    assert x == x / 256 * 256 + x % 256;
    assert x / 256 == x / 65536 * 256 + x / 256 % 256;
  }

  /** The header by weight: rate, channels and format, each lowest byte first. */
  lemma HeaderByWeight(b: seq<byte>)
    requires |b| == 12 && ParseHeader(b).Accepted?
    ensures var cfg := ParseHeader(b).cfg;
            && cfg.rate == b[0] as int + 256 * (b[1] as int) + 65536 * (b[2] as int) + 16777216 * (b[3] as int)
            && cfg.channels == b[4] as int + 256 * (b[5] as int)
            && cfg.format == b[6] as int + 256 * (b[7] as int)
  {
    WordByWeight(b[0..4]);
  }

  /**
   * What a shim sends is accepted exactly for a nonzero rate, one to eight channels and the two
   * known formats, after truncation to 16 bits; and then it is what was sent, truncated.
   */
  lemma HeaderRoundTrip(rate: nat, channels: nat, format: nat)
    requires rate < U32
    ensures var ch, fmt := channels % 65536, format % 65536;
            ParseHeader(SendHeader(rate, channels, format))
            == if rate != 0 && 1 <= ch <= 8 && (fmt == FORMAT_S16_LE || fmt == FORMAT_FLOAT_LE)
               then Accepted(AudioCfg(rate, ch, fmt)) else Rejected
  {
    var b := SendHeader(rate, channels, format);
    assert b[0..4] == Le32(rate);
    Le32RoundTrip(rate);
    Le16RoundTrip(channels);
    Le16RoundTrip(format);
    assert b[4] == Le16(channels)[0] && b[5] == Le16(channels)[1];
    assert b[6] == Le16(format)[0] && b[7] == Le16(format)[1];
  }
}
