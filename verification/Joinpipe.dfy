/** JoinpipeMain: the stretch-reading loop. */
module Joinpipe {
  import opened Bytes
  import opened Stretches
  import Md5

  function Start(buffer: (byte, byte)): (j: Joiner)
  {
    Joiner([], 0, buffer, [], Running)
  }

  /** files lists what every successive open of an input device shows; buffer is the read buffer's
      content before anything has been read. */
  method JoinpipeMain(f: Md5.Compress, files: seq<seq<byte>>, buffer0: (byte, byte)) returns (j: Joiner)
    ensures j == Join(f, files, 0, 0, Start(buffer0))
  {
    hide Md5.Digest, Md5.Absorbed, Md5.Totals, Join;
    var uuid: seq<byte>, numVolumes, buffer, out: seq<byte> := [], 0, buffer0, [];
    var md5 := new Md5.MD5Summer(f);
    var k, pos := 0, 0;
    while true
      invariant md5.Valid() && fresh(md5) && fresh(md5.buffer) && md5.f == f && md5.fed == out
      invariant Join(f, files, k, pos, Joiner(uuid, numVolumes, buffer, out, Running))
             == Join(f, files, 0, 0, Start(buffer0))
      decreases |files| - k, Left(files, k, pos)
    {
      ghost var before := Joiner(uuid, numVolumes, buffer, out, Running);
      JoinUnfold(f, files, k, pos, before);
      if k >= |files| {
        return Joiner(uuid, numVolumes, buffer, out, Failed);
      }
      var stretch := ReadStretch(files[k], pos);
      if stretch.None? {
        return Joiner(uuid, numVolumes, buffer, out, Failed);
      }
      var s, next := stretch.value.0, stretch.value.1;
      var reopen := false;
      buffer := Overlay(s.payload, buffer);
      if s.kind == SESSION_UUID {
        if uuid == [] {
          uuid := s.payload;
        } else if uuid != s.payload {
          reopen := true;
        }
      } else if s.kind == VOLUME_NUMBER {
        if Get16(buffer.0, buffer.1) == numVolumes {
          numVolumes := numVolumes + 1;
        } else {
          reopen := true;
        }
      } else if s.kind == DATA {
        if s.payload == [] {
          return Joiner(uuid, numVolumes, buffer, out, Failed);
        }
        out := out + s.payload;
        md5.Feed(s.payload);
      } else if s.kind == VOLUME_EOF {
        reopen := true;
      } else if s.kind == SESSION_EOF {
        return Joiner(uuid, numVolumes, buffer, out, Finished);
      } else if s.kind == MD5_CHECKSUM {
        var md5sum := md5.Get();
        if md5sum != s.payload {
          return Joiner(uuid, numVolumes, buffer, out, Failed);
        }
      }
      if reopen {
        k, pos := k + 1, 0;
      } else {
        pos := next;
      }
    }
  }

  lemma JoinUnfold(f: Md5.Compress, files: seq<seq<byte>>, k: nat, pos: nat, j: Joiner)
    requires j.status.Running?
    ensures Join(f, files, k, pos, j) ==
            if k >= |files| || ReadStretch(files[k], pos).None? then j.(status := Failed)
            else
              var (s, next) := ReadStretch(files[k], pos).value;
              var j' := Take(f, j, s);
              (if !j'.status.Running? then j'
               else if Leaves(j, s) then Join(f, files, k + 1, 0, j') else Join(f, files, k, next, j'))
  {
    hide Take, Leaves, ReadStretch;
  }
}
