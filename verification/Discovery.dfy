/** The scrambled announcement a robot broadcasts while it waits for a client. */
module Discovery {

  const MESSAGE_SIZE: nat := 24

  function NextKey(key: bv32): bv32 {
    (key + 7) ^ 178
  }

  function Scramble(b: bv8, key: bv32): bv8 {
    ((b as bv32 ^ key) & 0xff) as bv8
  }

  /** The running key is added byte by byte; it does not depend on the data. */
  function Encrypted(data: seq<bv8>, key: bv32): (r: seq<bv8>)
    ensures |r| == |data|
    decreases |data|
  {
    if data == [] then [] else [Scramble(data[0], key)] + Encrypted(data[1..], NextKey(key))
  }

  method Encrypt(data: seq<bv8>) returns (buf: seq<bv8>)
    ensures buf == Encrypted(data, 0x07)
  {
    hide Scramble, NextKey, Encrypted;
    buf := [];
    var key: bv32 := 0x07;
    assert data[0..] == data;
    for i := 0 to |data|
      invariant |buf| == i
      invariant Encrypted(data, 0x07) == buf + Encrypted(data[i..], key)
    {
      EncryptedNext(data, i, key, buf);
      buf := buf + [Scramble(data[i], key)];
      key := NextKey(key);
    }
    EncryptedNothing(data[|data|..], key);
  }

  lemma EncryptedNothing(data: seq<bv8>, key: bv32)
    requires data == []
    ensures Encrypted(data, key) == []
  {
  }

  lemma EncryptedNext(data: seq<bv8>, i: nat, key: bv32, done: seq<bv8>)
    requires i < |data|
    ensures done + Encrypted(data[i..], key)
         == done + [Scramble(data[i], key)] + Encrypted(data[i + 1..], NextKey(key))
  {
    hide Scramble, NextKey;
    assert data[i..][0] == data[i] && data[i..][1..] == data[i + 1..];
    Regrouped(done, [Scramble(data[i], key)], Encrypted(data[i + 1..], NextKey(key)));
  }

  lemma ScrambleUndone(b: bv8, key: bv32)
    ensures Scramble(Scramble(b, key), key) == b
  {
  }

  /** Scrambling twice gives the data back. */
  lemma {:induction false} EncryptUndoesItself(data: seq<bv8>, key: bv32)
    ensures Encrypted(Encrypted(data, key), key) == data
    decreases |data|
  {
    hide Scramble, NextKey;
    if data != [] {
      ScrambleUndone(data[0], key);
      EncryptUndoesItself(data[1..], NextKey(key));
      assert Encrypted(data, key)[1..] == Encrypted(data[1..], NextKey(key));
    }
  }

  /** The keys a message is scrambled with: from the first one, each is the last plus seven, with the bits of 178
      flipped. */
  ghost predicate Keys(keys: seq<bv32>, first: bv32) {
    && (keys != [] ==> keys[0] == first)
    && forall i :: 0 < i < |keys| ==> keys[i] == (keys[i - 1] + 7) ^ 178
  }

  lemma KeysOn(keys: seq<bv32>, first: bv32)
    requires keys != [] && Keys(keys, first)
    ensures Keys(keys[1..], NextKey(first))
  {
    var rest := keys[1..];
    assert forall i :: 0 < i < |rest| ==> rest[i] == keys[i + 1] && rest[i - 1] == keys[i];
    if rest != [] {
      assert rest[0] == keys[1];
    }
  }

  /** Every byte has the bits of the lowest byte of its key flipped. */
  lemma {:induction false} EncryptedByte(data: seq<bv8>, key: bv32, keys: seq<bv32>, i: nat)
    requires |keys| == |data| && Keys(keys, key) && i < |data|
    ensures Encrypted(data, key)[i] == data[i] ^ ((keys[i] & 0xff) as bv8)
    decreases |data|
  {
    hide Scramble, NextKey, Keys;
    if i == 0 {
      FirstKey(keys, key);
      ScrambledBits(data[0], key);
    } else {
      KeysOn(keys, key);
      EncryptedByte(data[1..], NextKey(key), keys[1..], i - 1);
      assert keys[1..][i - 1] == keys[i] && data[1..][i - 1] == data[i];
    }
  }

  lemma FirstKey(keys: seq<bv32>, first: bv32)
    requires keys != [] && Keys(keys, first)
    ensures keys[0] == first
  {
  }

  lemma ScrambledBits(b: bv8, key: bv32)
    ensures Scramble(b, key) == b ^ ((key & 0xff) as bv8)
  {
  }

  // ----- The announcement

  /** The application name as it travels: at most eight bytes, zero filled. */
  function AppField(appId: seq<bv8>): (field: seq<bv8>)
    ensures |field| == 8
  {
    if |appId| >= 8 then appId[..8] else appId + Zeros(8 - |appId|)
  }

  function Zeros(n: nat): (r: seq<bv8>)
    ensures |r| == n && forall k :: 0 <= k < n ==> r[k] == 0
  {
    seq(n, _ => 0)
  }

  function Head(isPairing: bool): seq<bv8> {
    [0x5a, 0x5b, 0, 0, 0, if isPairing then 1 else 0]
  }

  /** The announcement before scrambling, big-endian magic number first. */
  function Layout(isPairing: bool, ip: seq<bv8>, mac: seq<bv8>, appId: seq<bv8>): (r: seq<bv8>)
    requires |ip| == 4 && |mac| == 6
    ensures |r| == MESSAGE_SIZE
  {
    Head(isPairing) + ip + mac + AppField(appId)
  }

  /** What stands where before scrambling. */
  lemma AnnouncementLayout(isPairing: bool, ip: seq<bv8>, mac: seq<bv8>, appId: seq<bv8>)
    requires |ip| == 4 && |mac| == 6
    ensures var a := Layout(isPairing, ip, mac, appId);
            && |a| == 24
            && a[..5] == [0x5a, 0x5b, 0, 0, 0]
            && a[5] == (if isPairing then 1 else 0)
            && a[6..10] == ip && a[10..16] == mac
            && forall k :: 0 <= k < 8 ==> a[16 + k] == if k < |appId| then appId[k] else 0
  {
    var a, head, field := Layout(isPairing, ip, mac, appId), Head(isPairing), AppField(appId);
    hide Head, AppField;
    assert a[..6] == head && a[16..] == field;
    assert forall k :: 0 <= k < 8 ==> a[16 + k] == field[k];
  }

  method DiscoveryMessage(isPairing: bool, ip: seq<bv8>, mac: seq<bv8>, appId: seq<bv8>) returns (message: seq<bv8>)
    requires |ip| == 4 && |mac| == 6
    ensures message == Encrypted(Layout(isPairing, ip, mac, appId), 0x07)
  {
    hide Encrypted, Zeros, AppField;
    var buffer := new bv8[24](_ => 0);
    buffer[0] := 0x5a;
    buffer[1] := 0x5b;
    if isPairing {
      buffer[5] := 1;
    }
    ghost var head := Head(isPairing);
    assert buffer[..] == head + Zeros(18);
    FillField(buffer, 6, head, ip);
    FillField(buffer, 10, head + ip, mac);
    // the characters and the zero that ends them, as far as they fit
    var name := if |appId| < 8 then appId + [0] else appId[..8];
    FillField(buffer, 16, head + ip + mac, name);
    LayoutFilled(isPairing, ip, mac, appId, name);
    message := Encrypt(buffer[..]);
  }

  /** Writes a field behind what has been filled in so far. */
  method FillField(buffer: array<bv8>, index: nat, ghost front: seq<bv8>, data: seq<bv8>)
    requires index + |data| <= buffer.Length && |front| == index
    requires buffer[..] == front + Zeros(buffer.Length - index)
    modifies buffer
    ensures buffer[..] == front + data + Zeros(buffer.Length - index - |data|)
  {
    hide Zeros;
    FieldWritten(front, data, buffer.Length - index);
    WriteField(buffer, index, data);
  }

  lemma LayoutFilled(isPairing: bool, ip: seq<bv8>, mac: seq<bv8>, appId: seq<bv8>, name: seq<bv8>)
    requires |ip| == 4 && |mac| == 6 && name == if |appId| < 8 then appId + [0] else appId[..8]
    ensures Head(isPairing) + ip + mac + name + Zeros(8 - |name|) == Layout(isPairing, ip, mac, appId)
  {
    hide Zeros, AppField;
    AppFieldWritten(appId, name);
    Regrouped(Head(isPairing) + ip + mac, name, Zeros(8 - |name|));
  }

  lemma Regrouped(a: seq<bv8>, b: seq<bv8>, c: seq<bv8>)
    ensures a + b + c == a + (b + c)
  {
  }

  lemma FieldWritten(front: seq<bv8>, data: seq<bv8>, room: nat)
    requires |data| <= room
    ensures var before := front + Zeros(room);
            before[..|front|] + data + before[|front| + |data|..] == front + data + Zeros(room - |data|)
  {
  }

  lemma AppFieldWritten(appId: seq<bv8>, name: seq<bv8>)
    requires name == if |appId| < 8 then appId + [0] else appId[..8]
    ensures name + Zeros(8 - |name|) == AppField(appId)
  {
  }

  method WriteField(buffer: array<bv8>, index: nat, data: seq<bv8>)
    requires index + |data| <= buffer.Length
    modifies buffer
    ensures buffer[..] == old(buffer[..index]) + data + old(buffer[index + |data|..])
  {
    for i := 0 to |data|
      invariant forall k :: 0 <= k < buffer.Length ==>
                  buffer[k] == if index <= k < index + i then data[k - index] else old(buffer[k])
    {
      buffer[index + i] := data[i];
    }
  }

  /** Two announcements are equal exactly when they announce the same pairing state, addresses and
      first eight bytes of the zero-filled application name. */
  lemma AnnouncementTells(isPairing: bool, ip: seq<bv8>, mac: seq<bv8>, appId: seq<bv8>,
                          isPairing': bool, ip': seq<bv8>, mac': seq<bv8>, appId': seq<bv8>)
    requires |ip| == 4 && |mac| == 6 && |ip'| == 4 && |mac'| == 6
    ensures Encrypted(Layout(isPairing, ip, mac, appId), 0x07)
              == Encrypted(Layout(isPairing', ip', mac', appId'), 0x07)
            <==> isPairing == isPairing' && ip == ip' && mac == mac' && AppField(appId) == AppField(appId')
  {
    hide Encrypted, AppField;
    var a, b := Layout(isPairing, ip, mac, appId), Layout(isPairing', ip', mac', appId');
    EncryptUndoesItself(a, 0x07);
    EncryptUndoesItself(b, 0x07);
    if a == b {
      assert a[5] == b[5];
      assert ip == a[6..10] == b[6..10] == ip';
      assert mac == a[10..16] == b[10..16] == mac';
      assert AppField(appId) == a[16..] == b[16..] == AppField(appId');
    }
  }
}
