/**
  A file job of the writer thread (NsWriterQueue, WriterReadFromSpool,
  WriterSend and the loop over jobs in nsd/driver.c) that does not stream: a
  buffer between the file and the client, which keeps what was not sent.
*/
module WriterJob {
  import opened Basics
  import opened Bytes

  datatype Status = Ok | ReadError | WriteError | Close

  // Every read and every send moves at least a byte.
  predicate Progress(got: seq<int>, put: seq<int>) {
    (forall n :: n in got ==> n > 0) && (forall n :: n in put ==> n > 0)
  }

  lemma BothGrow(sent: Bytes, leftover: Bytes, header: Bytes, file: Bytes, pos: nat, n: nat)
    requires pos + n <= |file| && sent + leftover == header + file[..pos]
    ensures sent + (leftover + file[pos..pos + n]) == header + file[..pos + n]
  {
    var data := file[pos..pos + n];
    Regroup(sent, leftover, data);
    Regroup(header, file[..pos], data);
    Cut(file, pos, n);
  }

  lemma Regroup(a: Bytes, b: Bytes, c: Bytes)
    ensures a + (b + c) == (a + b) + c
  {
  }

  lemma Cut(s: Bytes, pos: nat, n: nat)
    requires pos + n <= |s|
    ensures s[..pos + n] == s[..pos] + s[pos..pos + n]
  {
  }

  class Job {
    var buf: array<Byte>
    var maxsize: nat
    var bufsize: nat        // bytes in the buffer that were not sent yet
    var bufoffset: nat      // where they start, after a send
    var toRead: nat         // bytes of the file that were not read yet
    var size: int           // bytes to send
    var nsent: nat

    // The file, from its position when the job was queued, and the client.
    const file: Bytes
    var pos: nat
    var sent: Bytes

    ghost const header: Bytes
    ghost const nsend: nat

    // Delivery so far, with what is not sent yet at offset from.
    ghost predicate Delivers(from: nat)
      reads this, buf
    {
      && buf.Length == maxsize && from + bufsize <= maxsize
      && pos <= |file| && pos + toRead == nsend && size == bufsize + toRead
      && nsent == |sent|
      && sent + buf[from..from + bufsize] == header + file[..pos]
    }

    // Between two rounds.
    ghost predicate Valid()
      reads this, buf
    {
      Delivers(bufoffset)
    }

    // With the header as the first leftover.  A header that exceeds the
    // writer's buffer takes its place.
    constructor (header: Bytes, file: Bytes, nsend: nat, writerBufsize: nat)
      ensures Valid() && fresh(buf) && sent == [] && size == |header| + nsend
      ensures this.header == header && this.file == file && this.nsend == nsend
      ensures maxsize == if |header| >= writerBufsize then |header| else writerBufsize
    {
      this.header, this.file, this.nsend := header, file, nsend;
      pos, sent, nsent := 0, [], 0;
      bufsize, bufoffset, toRead := |header|, 0, nsend;
      size := nsend + |header|;
      if |header| >= writerBufsize {
        buf := new Byte[|header|](i requires 0 <= i < |header| => header[i]);
        maxsize := |header|;
      } else {
        buf := new Byte[writerBufsize];
        maxsize := writerBufsize;
      }
      new;
      if 0 < |header| < writerBufsize {
        Copy(buf, 0, header);
      }
      assert buf[..|header|] == header;
    }

    // Moves the leftover of the last send to the front of the buffer.
    method Compact()
      requires Valid()
      modifies buf
      ensures Delivers(0)
    {
      if bufsize > 0 && bufoffset > 0 {
        MoveDown(buf, 0, bufoffset, bufsize);
      }
      assert buf[0..bufsize] == old(buf[bufoffset..bufoffset + bufsize]);
    }

    // Reads n bytes of the file behind the leftover.
    method Fill(n: nat)
      requires Delivers(0) && n <= toRead && bufsize + n <= maxsize && pos + n <= |file|
      modifies this, buf
      ensures Delivers(0) && pos == old(pos) + n
      ensures buf == old(buf) && sent == old(sent) && size == old(size) && maxsize == old(maxsize)
    {
      ghost var leftover, data := buf[0..bufsize], file[pos..pos + n];
      Copy(buf, bufsize, file[pos..pos + n]);
      assert buf[0..bufsize] == leftover;
      assert buf[0..bufsize + n] == leftover + data;
      BothGrow(sent, leftover, header, file, pos, n);
      pos := pos + n;
      toRead := toRead - n;
      bufsize := bufsize + n;
    }

    // Fills the buffer behind the leftover; answer is that of the read call.
    method ReadFromSpool(answer: int) returns (status: Status)
      requires Valid()
      modifies this, buf
      ensures Delivers(0) && buf == old(buf)
      ensures sent == old(sent) && size == old(size) && maxsize == old(maxsize)
      ensures status == Ok || (status == ReadError && toRead > 0 && pos == old(pos))
      ensures status == Ok ==> toRead == 0 || bufsize == maxsize || pos > old(pos)
      ensures status == Ok && size > 0 && maxsize > 0 ==> bufsize > 0
      ensures answer > 0 && nsend <= |file| ==> status == Ok
    {
      status := Ok;
      var room := maxsize;
      if bufsize > 0 {
        room := room - bufsize;
      }
      Compact();
      var wanted := Min(toRead, room);
      if wanted > 0 {
        var n := Min(answer, Min(wanted, |file| - pos));
        if n <= 0 {
          status := ReadError;
        } else {
          Fill(n);
        }
      }
    }

    // Sends the buffer; answer is that of the send call.
    method Send(answer: int) returns (status: Status)
      requires Delivers(0)
      modifies this
      ensures status == WriteError <==> answer < 0
      ensures status != WriteError ==> status == Ok && Valid()
      ensures status == WriteError ==> Delivers(0) && sent == old(sent)
      ensures buf == old(buf) && maxsize == old(maxsize)
      ensures |sent| == |old(sent)| + (old(size) - size)
      ensures answer >= 0 ==> size == old(size) - Min(answer, old(bufsize))
    {
      var n := Min(answer, bufsize);
      if n < 0 {
        status := WriteError;
      } else {
        status := Ok;
        assert buf[0..bufsize] == buf[0..n] + buf[n..bufsize];
        sent := sent + buf[..n];
        size := size - n;
        nsent := nsent + n;
        bufsize := bufsize - n;
        bufoffset := n;
      }
    }

    // The job's part of one spin of the writer thread.
    method Spin(read: int, send: int) returns (status: Status)
      requires Valid()
      modifies this, buf
      ensures buf == old(buf) && maxsize == old(maxsize)
      ensures status == Close <==> old(size) == 0
      ensures status == Close ==> size == 0
      ensures status == Close || status == Ok ==> Valid()
      ensures status == ReadError || status == WriteError ==> Delivers(0)
      ensures read > 0 && send > 0 && nsend <= |file| && old(size) > 0 && maxsize > 0 ==> status == Ok && size < old(size)
    {
      if size < 1 {
        status := Close;
      } else {
        status := ReadFromSpool(read);
        if status == Ok {
          status := Send(send);
        }
      }
    }

    // Spins until the job is released.  Whatever the answers to the reads and
    // sends, what was sent is a beginning of the header and the file; a job is
    // done exactly if everything was sent, and it gets done if every call moves
    // at least a byte.
    method Deliver(got: seq<int>, put: seq<int>) returns (done: bool)
      requires Valid() && |got| == |put|
      modifies this, buf
      ensures sent <= header + file && |sent| <= |header| + nsend
      ensures done ==> nsend <= |file| && sent == header + file[..nsend]
      ensures |sent| == |header| + nsend ==> done
      ensures nsend <= |file| && old(maxsize) > 0 && old(size) <= |got| && Progress(got, put) ==> done
    {
      var i, status := 0, Ok;
      while i < |got| && status == Ok && size > 0
        invariant 0 <= i <= |got| && buf == old(buf) && maxsize == old(maxsize)
        invariant status == Ok ==> Valid()
        invariant status == ReadError || status == WriteError ==> Delivers(0)
        invariant status != Close
        invariant nsend <= |file| && maxsize > 0 && Progress(got, put) ==> status == Ok && size + i <= old(size)
      {
        assert got[i] in got && put[i] in put;
        status := Spin(got[i], put[i]);
        i := i + 1;
      }
      Sent();
      done := size == 0;
    }

    lemma Sent()
      requires Valid() || Delivers(0)
      ensures sent <= header + file && |sent| <= |header| + nsend
      ensures size == 0 ==> nsend <= |file| && sent == header + file[..nsend]
      ensures |sent| == |header| + nsend ==> size == 0
    {
      assert header + file == (header + file[..pos]) + file[pos..];
      assert sent <= header + file[..pos];
    }
  }
}
