/** splitpipe followed by joinpipe. */
module PipeRoundTrip {
  import opened Bytes
  import opened Stretches
  import opened SessionLog
  import opened SplitCourse
  import opened Splitpipe
  import opened SplitRejects
  import Joinpipe
  import Md5

  /** Each volume as it is found on its medium: trailing bytes may follow. */
  function Media(volumes: seq<seq<byte>>, trailing: nat -> seq<byte>): (files: seq<seq<byte>>)
    ensures Shows(files, volumes) && |files| == |volumes|
  {
    seq(|volumes|, k requires 0 <= k < |volumes| => volumes[k] + trailing(k))
  }

  lemma FinaleJoins(c: Config, t: Trace, volumes: seq<seq<byte>>, files: seq<seq<byte>>)
    requires Finale(c, t, volumes) && Shows(files, volumes) && t.j0.status.Running?
    ensures var j := Join(c.f, files, 0, 0, t.j0);
            if t.empty then j.status.Failed? else j.status.Finished? && j.out == c.input
  {
    hide LogOk, Reader, Join, Shows, EncodeAll;
    FinalJoin(c.f, t.j0, t.log, volumes, files);
  }

  /** Whatever the interleaving of reads and partial writes, whatever follows the volumes on their
      media, and however the checksum was fed on either side: joinpipe gives back exactly the input,
      unless on these events a stretch is started with exactly three bytes left in its volume; then it
      fails. Volume numbers are 16 bits wide, so this needs at most 65536 volumes. */
  method SplitThenJoin(c: Config, events: seq<Event>, trailing: nat -> seq<byte>, buffer0: (byte, byte))
    returns (finished: bool, volumes: seq<seq<byte>>, j: Joiner)
    requires GoodConfig(c)
    ensures finished == Ends(c, events)
    ensures volumes == if finished then Volumes(c, Run(c, events, |events|).0) else []
    ensures j == Join(c.f, Media(volumes, trailing), 0, 0, Joiner([], 0, buffer0, [], Running))
    ensures finished && c.input != [] && |volumes| <= 0x10000 ==>
      && (j.status.Finished? && j.out == c.input <==> !StartsAtThree(c, events))
      && (StartsAtThree(c, events) ==> j.status.Failed?)
  {
    hide Finale, Join, WithinSize, Encode, Md5.Digest;
    ghost var t;
    finished, volumes, t := Go(c, events, buffer0);
    var files := Media(volumes, trailing);
    j := Joinpipe.JoinpipeMain(c.f, files, buffer0);
    if finished && c.input != [] && |volumes| <= 0x10000 {
      FinaleJoins(c, t, volumes, files);
    }
  }

  /** splitpipe -b 1 -s 3 -n may split any 988 bytes so that joinpipe fails. */
  method SmallRejected(f: Md5.Compress, input: seq<byte>, uuid: seq<byte>, trailing: nat -> seq<byte>,
                       buffer0: (byte, byte))
    returns (volumes: seq<seq<byte>>, j: Joiner)
    requires |input| == 988 && |uuid| == 16
    ensures volumes == Volumes(Small(f, input, uuid), Run(Small(f, input, uuid), SmallEvents(), 10).0)
    ensures j == Join(f, Media(volumes, trailing), 0, 0, Joiner([], 0, buffer0, [], Running)) && j.status.Failed?
  {
    hide Run, Join, Volumes, Media, SmallEvents;
    SmallStartsAtThree(f, input, uuid);
    var finished;
    finished, volumes, j := SplitThenJoin(Small(f, input, uuid), SmallEvents(), trailing, buffer0);
  }
}
