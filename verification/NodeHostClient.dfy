// The Drummer client of a node host (client/nodehost.go): the report it builds, and the queue of
// requests it is handed back.
module NodeHostClient {
  import opened ShardImage
  import opened HostImage
  import opened Scheduler
  import opened Reports

  // GetShardConfigChangeIndexList: what Drummer knows of each shard.
  ghost predicate KnownIndexes(indexes: map<nat, nat>, image: Image)
  {
    indexes.Keys == image.Keys && forall s :: s in image ==> indexes[s] == image[s].index
  }

  // w is the entry v, without its membership exactly if Drummer knows one at least as new.
  ghost predicate Sends(indexes: map<nat, nat>, v: ShardInfo, w: ShardInfo)
  {
    && w.shardId == v.shardId && w.replicaId == v.replicaId && w.isLeader == v.isLeader && w.index == v.index
    && w.pending == v.pending && (w.incomplete <==> !v.pending && v.shardId in indexes && v.index <= indexes[v.shardId])
    && w.replicas == if w.incomplete then map[] else v.replicas
  }

  class DrummerClient {
    const raftAddress: string
    var requests: seq<Request>

    constructor (raftAddress: string)
      ensures this.raftAddress == raftAddress && requests == []
    {
      this.raftAddress, requests := raftAddress, [];
    }

    method AddRequests(reqs: seq<Request>)
      modifies this
      ensures requests == old(requests) + reqs
    {
      requests := requests + reqs;
    }

    // All that is queued, which is queued no more.
    method GetRequests() returns (results: seq<Request>)
      modifies this
      ensures results == old(requests) && requests == []
    {
      results := requests;
      requests := [];
    }

    // The loops of SendNodeHostInfo: the report leaves out the memberships that Drummer, asked
    // before, knew at least as well.
    method BuildReport(indexes: map<nat, nat>, shardInfoList: seq<ShardInfo>, rpcAddress: string, region: string,
                       logInfo: seq<(nat, nat)>, logInfoIncluded: bool, ghost known: Image)
      returns (info: NodeHostInfo, panicked: bool)
      requires KnownIndexes(indexes, known)
      requires forall v :: v in shardInfoList ==> !v.incomplete
      ensures panicked <==> !logInfoIncluded && logInfo != []
      ensures !panicked ==> |info.shardInfo| == |shardInfoList|
                            && forall k :: 0 <= k < |shardInfoList| ==> Sends(indexes, shardInfoList[k], info.shardInfo[k])
      ensures !panicked ==> info.shardInfo == SuppressedAll(known, shardInfoList)
      ensures !panicked ==> info == NodeHostInfo(raftAddress, rpcAddress, region, 0, info.shardInfo, info.shardIdList,
                                                 logInfoIncluded, logInfo)
      ensures !panicked ==> forall s :: s in info.shardIdList <==> exists k :: 0 <= k < |shardInfoList| && shardInfoList[k].shardId == s
    {
      var cil: seq<ShardInfo> := [];
      var shardIdList: seq<nat> := [];
      for k := 0 to |shardInfoList|
        invariant |cil| == |shardIdList| == k
        invariant forall i :: 0 <= i < k ==>
          cil[i] == Suppressed(known, shardInfoList[i]) && shardIdList[i] == shardInfoList[i].shardId
          && Sends(indexes, shardInfoList[i], cil[i])
      {
        var v := shardInfoList[k];
        var incomplete := false;
        shardIdList := shardIdList + [v.shardId];
        if v.shardId in indexes && indexes[v.shardId] >= v.index && !v.pending {
          incomplete := true;
          v := v.(replicas := map[]);
        }
        cil := cil + [v.(incomplete := incomplete)];
      }
      panicked := !logInfoIncluded && |logInfo| != 0;
      info := NodeHostInfo(raftAddress, rpcAddress, region, 0, cil, shardIdList, logInfoIncluded, logInfo);
      assert forall k :: 0 <= k < |shardInfoList| ==> shardIdList[k] in shardIdList;
    }
  }
}
