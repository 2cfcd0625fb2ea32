/** The recorder's set-up (audio.go): the chunk size it reads, and the command
    line of the capture program, pw-record (PipeWire) when it is on the path,
    arecord (ALSA) otherwise. Whether pw-record is found (`exec.LookPath`) is
    a parameter; starting the subprocess and reading its pipe are left out.
    `fmt.Sprintf("%d", n)` is given with its inverse. */
module Audio {
  import opened Common

  datatype AudioConfig = AudioConfig(sampleRate: int, chunkMs: int, device: string)

  datatype Recorder = Recorder(sampleRate: int, chunkBytes: int, device: string)

  /** `NewRecorder` (audio.go:21-29): whole samples per chunk with Go's
      truncating division, two bytes each. */
  function NewRecorder(cfg: AudioConfig): (r: Recorder)
    ensures r.sampleRate == cfg.sampleRate && r.device == cfg.device
    ensures r.chunkBytes % 2 == 0
    ensures cfg.sampleRate * cfg.chunkMs >= 0 ==>
              500 * r.chunkBytes <= cfg.sampleRate * cfg.chunkMs < 500 * r.chunkBytes + 1000
  {
    var chunkSamples := GoQuo(cfg.sampleRate * cfg.chunkMs, 1000);
    Recorder(cfg.sampleRate, chunkSamples * 2, cfg.device)
  }

  /** With the default 16000 Hz and 480 ms, a chunk is 7680 samples. */
  lemma DefaultChunk()
    ensures NewRecorder(AudioConfig(16000, 480, "")).chunkBytes == 15360
  {
  }

  predicate IsDigit(c: char)
  {
    '0' <= c <= '9'
  }

  function DigitChar(d: nat): (c: char)
    requires d < 10
    ensures IsDigit(c) && c as int - '0' as int == d
  {
    ('0' as int + d) as char
  }

  /** Decimal digits of a natural number, most significant first. */
  function NatToString(n: nat): (s: string)
    ensures |s| >= 1 && forall i :: 0 <= i < |s| ==> IsDigit(s[i])
  {
    if n < 10 then [DigitChar(n)] else NatToString(n / 10) + [DigitChar(n % 10)]
  }

  /** `%d`: a minus sign for a negative value, then the digits. */
  function IntToString(n: int): (s: string)
    ensures |s| >= 1
  {
    if n < 0 then "-" + NatToString(-n) else NatToString(n)
  }

  function ParseNat(s: string): nat
    requires |s| >= 1 && forall i :: 0 <= i < |s| ==> IsDigit(s[i])
  {
    assert IsDigit(s[|s| - 1]);
    var d := s[|s| - 1] as int - '0' as int;
    if |s| == 1 then d else 10 * ParseNat(s[..|s| - 1]) + d
  }

  function ParseInt(s: string): int
    requires |s| >= 1
    requires s[0] == '-' ==> |s| >= 2 && forall i :: 1 <= i < |s| ==> IsDigit(s[i])
    requires s[0] != '-' ==> forall i :: 0 <= i < |s| ==> IsDigit(s[i])
  {
    if s[0] == '-' then -(ParseNat(s[1..]) as int) else ParseNat(s)
  }

  lemma {:induction false} NatRoundTrip(n: nat)
    ensures ParseNat(NatToString(n)) == n
  {
    if n >= 10 {
      NatRoundTrip(n / 10);
      var s := NatToString(n);
      assert s[..|s| - 1] == NatToString(n / 10);
    }
  }

  /** Reading back what `%d` wrote gives the number. */
  lemma IntRoundTrip(n: int)
    ensures ParseInt(IntToString(n)) == n
  {
    if n < 0 {
      var s := IntToString(n);
      assert s[1..] == NatToString(-n);
      NatRoundTrip(-n);
    } else {
      NatRoundTrip(n);
    }
  }

  /** The pw-record command line without a device (audio.go:79-85). */
  function PwRecordArgs(sampleRate: int): seq<string>
  {
    ["pw-record", "--format=s16", "--rate=" + IntToString(sampleRate), "--channels=1", "-"]
  }

  /** The arecord command line without a device (audio.go:94-102). */
  function ArecordArgs(sampleRate: int): seq<string>
  {
    ["arecord", "-f", "S16_LE", "-r", IntToString(sampleRate), "-c", "1", "-t", "raw", "-q", "-"]
  }

  /** The arguments that name the capture device, for either program. */
  function DeviceArgs(device: string, pwRecord: bool): seq<string>
  {
    if pwRecord then ["--target=" + device] else ["-D", device]
  }

  /** `buildArgs` (audio.go:77-107): a device, when set, is inserted right
      after the program name. */
  function BuildArgs(sampleRate: int, device: string, pwRecord: bool): (args: seq<string>)
    ensures |args| == (if pwRecord then 5 else 11) + (if device == "" then 0 else |DeviceArgs(device, pwRecord)|)
    ensures args[0] == (if pwRecord then "pw-record" else "arecord")
    ensures args[|args| - 1] == "-"
  {
    var base := if pwRecord then PwRecordArgs(sampleRate) else ArecordArgs(sampleRate);
    if device != "" then [base[0]] + DeviceArgs(device, pwRecord) + base[1..] else base
  }

  /** Setting a device only inserts its arguments at index 1: removing them
      gives the list built without a device, element for element. */
  lemma DeviceOnlyInserts(sampleRate: int, device: string, pwRecord: bool)
    requires device != ""
    ensures var args := BuildArgs(sampleRate, device, pwRecord);
            var k := |DeviceArgs(device, pwRecord)|;
            && args[1..1 + k] == DeviceArgs(device, pwRecord)
            && [args[0]] + args[1 + k..] == BuildArgs(sampleRate, "", pwRecord)
  {
    var base := if pwRecord then PwRecordArgs(sampleRate) else ArecordArgs(sampleRate);
    var args := BuildArgs(sampleRate, device, pwRecord);
    var k := |DeviceArgs(device, pwRecord)|;
    assert args[1 + k..] == base[1..];
    assert [base[0]] + base[1..] == base;
  }

  /** The capture program is asked for the configured rate: the rate argument
      reads back as the sample rate. */
  lemma RateArgument(sampleRate: int, device: string, pwRecord: bool)
    ensures var args := BuildArgs(sampleRate, device, pwRecord);
            var k := if device == "" then 0 else |DeviceArgs(device, pwRecord)|;
            if pwRecord then args[2 + k] == "--rate=" + IntToString(sampleRate)
            else args[3 + k] == "-r" && args[4 + k] == IntToString(sampleRate)
    ensures ParseInt(IntToString(sampleRate)) == sampleRate
  {
    IntRoundTrip(sampleRate);
  }

  /** The default-rate pw-record command line, spelled out. */
  lemma DefaultPwRecordArgs()
    ensures BuildArgs(16000, "", true) == ["pw-record", "--format=s16", "--rate=16000", "--channels=1", "-"]
  {
    assert DigitChar(0) == '0' && DigitChar(1) == '1' && DigitChar(6) == '6';
    assert NatToString(1) == "1";
    assert NatToString(16) == "16";
    assert NatToString(160) == "160";
    assert NatToString(1600) == "1600";
    assert NatToString(16000) == "16000";
    assert IntToString(16000) == "16000";
    assert "--rate=" + "16000" == "--rate=16000";
  }

  /** The arecord command line when pw-record is missing, at the default
      rate and with a device set, spelled out. */
  lemma DefaultArecordArgs()
    ensures BuildArgs(16000, "hw:1", false)
            == ["arecord", "-D", "hw:1", "-f", "S16_LE", "-r", "16000", "-c", "1", "-t", "raw", "-q", "-"]
  {
    assert NatToString(16000) == "16000" by {
      assert DigitChar(0) == '0' && DigitChar(1) == '1' && DigitChar(6) == '6';
      assert NatToString(1) == "1";
      assert NatToString(16) == "16";
      assert NatToString(160) == "160";
      assert NatToString(1600) == "1600";
    }
    assert IntToString(16000) == "16000";
    var base := ArecordArgs(16000);
    assert base == ["arecord", "-f", "S16_LE", "-r", "16000", "-c", "1", "-t", "raw", "-q", "-"];
    assert [base[0]] + DeviceArgs("hw:1", false) + base[1..]
           == ["arecord", "-D", "hw:1", "-f", "S16_LE", "-r", "16000", "-c", "1", "-t", "raw", "-q", "-"];
  }
}
