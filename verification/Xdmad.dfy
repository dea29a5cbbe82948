/** The DMA driver of xdmad.c on its own channel table and the controller's registers.
    Every call is shown to do what XdmadModel says of it. */
module Xdmad {
  import opened UInt
  import Xdmac
  import R = XdmacModel
  import H = XdmaHardwareInterface
  import M = XdmadModel
  import O = XdmadOperations

  class Dmad {
    const controller: Xdmac.Controller
    const xdmaChannels: array<M.Channel>
    var numChannels: nat
    var pollingMode: bool
    var initialized: bool
    ghost var calls: seq<M.Call> // every call made through a callback pointer so far

    /** The driver's static storage, all zero. */
    constructor (hardware: Xdmac.Controller)
      requires hardware.chid.Length == R.CHANNEL_NUM
      ensures Valid() && controller == hardware && fresh(xdmaChannels) && !initialized && calls == []
      ensures forall j :: 0 <= j < R.CHANNEL_NUM ==> xdmaChannels[j] == M.FreshChannel()
    {
      controller := hardware;
      xdmaChannels := new M.Channel[R.CHANNEL_NUM](_ => M.FreshChannel());
      numChannels, pollingMode, initialized, calls := 0, false, false, [];
    }

    ghost predicate Valid()
      reads this, controller
    {
      controller.chid.Length == R.CHANNEL_NUM && xdmaChannels.Length == R.CHANNEL_NUM && numChannels <= R.CHANNEL_NUM
    }

    function Model(): M.Driver
      reads this, xdmaChannels, controller, controller.chid
    {
      M.Driver(controller.Model(), xdmaChannels[..], numChannels, pollingMode)
    }

    /** The first call fills the table with free channels; later calls do nothing. */
    method Initialize(gtype: uint32, bPollingMode: bool)
      requires Valid() && (!initialized ==> M.ChannelCount(gtype) <= R.CHANNEL_NUM)
      modifies this`numChannels, this`pollingMode, this`initialized, xdmaChannels
      ensures Valid() && initialized
      ensures !old(initialized) ==> numChannels > 0 && O.LowFiveBits(numChannels - 1, gtype)
      ensures old(initialized) ==> Model() == old(Model())
      ensures !old(initialized) ==>
                var n := M.ChannelCount(gtype);
                && Model() == old(Model()).(channels := xdmaChannels[..], numChannels := n, polling := bPollingMode)
                && (forall j :: 0 <= j < n ==> xdmaChannels[j] == M.FreshChannel())
                && xdmaChannels[n..] == old(xdmaChannels[n..])
    {
      if initialized {
        return;
      }
      pollingMode := bPollingMode;
      numChannels := M.ChannelCount(gtype);
      var j := 0;
      while j < numChannels
        invariant j <= numChannels == M.ChannelCount(gtype)
        invariant pollingMode == bPollingMode
        invariant forall k :: 0 <= k < j ==> xdmaChannels[k] == M.FreshChannel()
        invariant forall k :: j <= k < R.CHANNEL_NUM ==> xdmaChannels[k] == old(xdmaChannels[k])
      {
        xdmaChannels[j] := xdmaChannels[j].(callback := M.NULL, arg := 0);
        xdmaChannels[j] := xdmaChannels[j].(srcPeriphId := 0, dstPeriphId := 0);
        xdmaChannels[j] := xdmaChannels[j].(srcTxIfId := 0, srcRxIfId := 0, dstTxIfId := 0, dstRxIfId := 0);
        xdmaChannels[j] := xdmaChannels[j].(state := M.Free);
        j := j + 1;
      }
      O.CountBits(gtype);
      initialized := true;
    }

    method AllocateXdmacChannel(table: seq<H.HwIf>, last: nat, bSrcId: uint8, bDstId: uint8) returns (dwChannel: nat)
      requires Valid() && H.Covers(table, last)
      modifies xdmaChannels
      ensures (Model(), dwChannel) == M.AllocateChannel(old(Model()), table, last, bSrcId, bDstId)
    {
      if bSrcId != H.MEMORY && bDstId != H.MEMORY {
        return M.ALLOC_FAILED;
      }
      if bDstId == H.MEMORY {
        var valid := H.IsValidatedPeripherOnDma(table, last, bSrcId);
        if !valid {
          return M.ALLOC_FAILED;
        }
      }
      if bSrcId == H.MEMORY {
        var valid := H.IsValidatedPeripherOnDma(table, last, bDstId);
        if !valid {
          return M.ALLOC_FAILED;
        }
      }
      var i := 0;
      while i < numChannels
        invariant i <= numChannels
        invariant M.FirstFree(Model(), 0) == M.FirstFree(Model(), i)
        invariant xdmaChannels[..] == old(xdmaChannels[..])
      {
        if xdmaChannels[i].state == M.Free {
          xdmaChannels[i] := xdmaChannels[i].(state := M.Allocated, srcPeriphId := bSrcId, dstPeriphId := bDstId);
          var srcTx := H.GetChannelNumber(table, last, bSrcId, 0);
          var srcRx := H.GetChannelNumber(table, last, bSrcId, 1);
          var dstTx := H.GetChannelNumber(table, last, bDstId, 0);
          var dstRx := H.GetChannelNumber(table, last, bDstId, 1);
          xdmaChannels[i] := xdmaChannels[i].(srcTxIfId := srcTx, srcRxIfId := srcRx, dstTxIfId := dstTx, dstRxIfId := dstRx);
          assert xdmaChannels[..] == old(xdmaChannels[..])[i := M.Occupy(old(xdmaChannels[i]), table, last, bSrcId, bDstId)];
          return i % 0x100;
        }
        i := i + 1;
      }
      dwChannel := M.ALLOC_FAILED;
    }

    /** The lock is waited for with a time limit; obtained says whether that succeeded. */
    method AllocateChannel(obtained: bool, table: seq<H.HwIf>, last: nat, bSrcId: uint8, bDstId: uint8)
      returns (dwChannel: nat)
      requires Valid() && H.Covers(table, last)
      modifies xdmaChannels
      ensures obtained ==> (Model(), dwChannel) == M.AllocateChannel(old(Model()), table, last, bSrcId, bDstId)
      ensures !obtained ==> (Model(), dwChannel) == (old(Model()), M.ALLOC_FAILED)
    {
      if obtained {
        dwChannel := AllocateXdmacChannel(table, last, bSrcId, bDstId);
        return;
      }
      dwChannel := M.ALLOC_FAILED;
    }

    method FreeChannel(dwChannel: uint32) returns (rc: M.Status)
      requires Valid()
      modifies xdmaChannels
      ensures (Model(), rc) == M.FreeChannel(old(Model()), dwChannel)
    {
      var iChannel := dwChannel % 0x100;
      if iChannel >= numChannels {
        return M.Error;
      }
      assert xdmaChannels[..] == xdmaChannels[..][iChannel := xdmaChannels[iChannel]];
      match xdmaChannels[iChannel].state
      case Allocated | Start | InXfr => rc := M.Busy;
      case Done | Halted =>
        xdmaChannels[iChannel] := xdmaChannels[iChannel].(state := M.Free);
        rc := M.Ok;
      case Free => rc := M.Ok;
    }

    method SetCallback(dwChannel: uint32, fCallback: nat, pArg: nat) returns (rc: M.Status)
      requires Valid()
      modifies xdmaChannels
      ensures (Model(), rc) == M.SetCallback(old(Model()), dwChannel, fCallback, pArg)
    {
      var iChannel := dwChannel % 0x100;
      if iChannel >= numChannels {
        return M.Error;
      }
      if xdmaChannels[iChannel].state == M.Free {
        return M.Error;
      } else if xdmaChannels[iChannel].state == M.Start {
        return M.Busy;
      }
      xdmaChannels[iChannel] := xdmaChannels[iChannel].(callback := fCallback);
      xdmaChannels[iChannel] := xdmaChannels[iChannel].(arg := pArg);
      assert xdmaChannels[..] == old(xdmaChannels[..])[iChannel := xdmaChannels[iChannel]];
      rc := M.Ok;
    }

    method PrepareChannel(dwChannel: uint32) returns (rc: M.Status)
      requires Valid()
      modifies controller, controller.chid
      ensures (Model(), rc) == M.PrepareChannel(old(Model()), dwChannel)
    {
      var iChannel := dwChannel % 0x100;
      if iChannel >= numChannels {
        return M.Error;
      }
      if xdmaChannels[iChannel].state == M.Free {
        return M.Error;
      } else if xdmaChannels[iChannel].state == M.Start || xdmaChannels[iChannel].state == M.InXfr {
        return M.Busy;
      }
      var _ := controller.GetChannelIsr(iChannel);
      controller.DisableGIt(iChannel);
      controller.DisableChannelIt(iChannel, 0xFF);
      controller.DisableChannel(iChannel);
      controller.SetSourceAddr(iChannel, 0);
      controller.SetDestinationAddr(iChannel, 0);
      controller.SetBlockControl(iChannel, 0);
      controller.SetChannelConfig(iChannel, 0x20);
      controller.SetDescriptorAddr(iChannel, 0, 0);
      controller.SetDescriptorControl(iChannel, 0);
      rc := M.Ok;
    }

    method Handler()
      requires Valid()
      modifies this`calls, xdmaChannels, controller.chid
      ensures Model() == M.Handler(old(Model())).0
      ensures calls == old(calls) + M.Handler(old(Model())).1
    {
      var gis := controller.gis;
      if exists c :: c in gis && c < R.CHANNEL_NUM {
        var gs := controller.gs;
        var bExec := false;
        ghost var start := Model();
        var i := 0;
        while i < numChannels
          invariant i <= numChannels
          invariant M.HandlerFrom(start, gis, gs, 0, false).0 == M.HandlerFrom(Model(), gis, gs, i, bExec).0
          invariant old(calls) + M.HandlerFrom(start, gis, gs, 0, false).1
                 == calls + M.HandlerFrom(Model(), gis, gs, i, bExec).1
        {
          if i in gis {
            if xdmaChannels[i].state == M.Free {
              return;
            }
            bExec := HandleChannel(gs, i, bExec);
          }
          i := i + 1;
        }
      }
    }

    /** The loop body, for a pending channel that is not free. */
    method HandleChannel(gs: set<nat>, i: nat, carried: bool) returns (bExec: bool)
      requires Valid() && i < numChannels && xdmaChannels[i].state != M.Free
      modifies this`calls, xdmaChannels, controller.chid
      ensures bExec == M.RoundFlag(old(Model()), gs, i, carried)
      ensures Model() == M.Round(old(Model()), gs, i)
      ensures calls == old(calls) + M.RoundCalls(old(Model()), gs, i, carried)
    {
      ghost var x := xdmaChannels[i];
      bExec := carried;
      if i !in gs {
        bExec := false;
        var status := controller.GetMaskChannelIsr(i);
        if R.BlockEnd in status {
          if R.ListEnd !in controller.chid[i].cim {
            xdmaChannels[i] := xdmaChannels[i].(state := M.Done);
            bExec := true;
          }
        }
        if R.ListEnd in status {
          xdmaChannels[i] := xdmaChannels[i].(state := M.Done);
          bExec := true;
        }
        if R.DisableEnd in status {
          xdmaChannels[i] := xdmaChannels[i].(state := M.Done);
          bExec := true;
        }
        assert bExec == M.CompletesAt(old(Model()), i);
        assert xdmaChannels[..] == old(xdmaChannels[..])[i := if bExec then x.(state := M.Done) else x];
      } else {
        var status := controller.GetChannelIsr(i);
        if R.BlockEnd in status {
          calls := calls + [M.Call(i, xdmaChannels[i].callback, xdmaChannels[i].arg)];
        }
      }
      if bExec && xdmaChannels[i].callback != M.NULL {
        calls := calls + [M.Call(i, xdmaChannels[i].callback, xdmaChannels[i].arg)];
      }
    }

    method IsTransferDone(dwChannel: uint32) returns (rc: M.Status)
      requires Valid()
      modifies this`calls, xdmaChannels, controller.chid
      ensures var (d, status, made) := M.IsTransferDone(old(Model()), dwChannel);
              Model() == d && rc == status && calls == old(calls) + made
    {
      var iChannel := dwChannel % 0x100;
      if iChannel >= numChannels {
        return M.Error;
      }
      var state := xdmaChannels[iChannel].state;
      if state == M.Allocated {
        return M.Ok;
      }
      if state == M.Free {
        return M.Error;
      } else if state != M.Done {
        if pollingMode {
          Handler();
        }
        return M.Busy;
      }
      rc := M.Ok;
    }

    method ConfigureTransfer(dwChannel: uint32, p: M.Config, descCfg: uint32, descAddr: uint32, intEn: uint32)
      returns (rc: M.Status)
      requires Valid()
      modifies controller.chid
      ensures (Model(), rc) == M.ConfigureTransfer(old(Model()), dwChannel, p, descCfg, descAddr, intEn)
    {
      var iChannel := dwChannel % 0x100;
      if iChannel >= numChannels {
        return M.Error;
      }
      var _ := controller.GetChannelIsr(iChannel);
      if xdmaChannels[iChannel].state == M.Free {
        return M.Error;
      }
      if xdmaChannels[iChannel].state == M.Start {
        return M.Busy;
      }
      if M.FetchesDescriptors(descCfg) {
        ConfigureList(iChannel, p, descCfg, descAddr, intEn);
      } else {
        ConfigureSingle(iChannel, p, intEn);
      }
      rc := M.Ok;
    }

    method ConfigureList(iChannel: nat, p: M.Config, descCfg: uint32, descAddr: uint32, intEn: uint32)
      requires Valid() && iChannel < R.CHANNEL_NUM
      modifies controller.chid
      ensures controller.Model() == M.ConfigureListRegs(old(controller.Model()), iChannel, p, descCfg, descAddr, intEn)
    {
      if M.View(descCfg) == 0 {
        controller.SetChannelConfig(iChannel, p.cfg);
        controller.SetSourceAddr(iChannel, p.sa);
        controller.SetDestinationAddr(iChannel, p.da);
      }
      if M.View(descCfg) == 1 {
        controller.SetChannelConfig(iChannel, p.cfg);
      }
      controller.SetDescriptorAddr(iChannel, descAddr, 0);
      controller.SetDescriptorControl(iChannel, descCfg);
      controller.DisableChannelIt(iChannel, 0xFF);
      controller.EnableChannelIt(iChannel, intEn);
    }

    method ConfigureSingle(iChannel: nat, p: M.Config, intEn: uint32)
      requires Valid() && iChannel < R.CHANNEL_NUM
      modifies controller.chid
      ensures controller.Model() == M.ConfigureSingleRegs(old(controller.Model()), iChannel, p, intEn)
    {
      controller.SetSourceAddr(iChannel, p.sa);
      controller.SetDestinationAddr(iChannel, p.da);
      controller.SetMicroblockControl(iChannel, p.ubc);
      controller.SetBlockControl(iChannel, p.bc);
      controller.SetDataStrideMemPattern(iChannel, p.ds);
      controller.SetSourceMicroBlockStride(iChannel, p.sus);
      controller.SetDestinationMicroBlockStride(iChannel, p.dus);
      controller.SetChannelConfig(iChannel, p.cfg);
      controller.SetDescriptorAddr(iChannel, 0, 0);
      controller.SetDescriptorControl(iChannel, 0);
      controller.EnableChannelIt(iChannel, intEn);
    }

    method StartTransfer(dwChannel: uint32) returns (rc: M.Status)
      requires Valid()
      modifies xdmaChannels, controller
      ensures (Model(), rc) == M.StartTransfer(old(Model()), dwChannel)
    {
      var iChannel := dwChannel % 0x100;
      if iChannel >= numChannels {
        return M.Error;
      }
      if xdmaChannels[iChannel].state == M.Free {
        return M.Error;
      } else if xdmaChannels[iChannel].state == M.Start {
        return M.Busy;
      }
      xdmaChannels[iChannel] := xdmaChannels[iChannel].(state := M.Start);
      controller.EnableChannel(iChannel);
      if !pollingMode {
        controller.EnableGIt(iChannel);
      }
      rc := M.Ok;
    }

    method StopTransfer(dwChannel: uint32) returns (rc: M.Status)
      requires Valid()
      modifies xdmaChannels, controller, controller.chid
      ensures (Model(), rc) == M.StopTransfer(old(Model()), dwChannel)
    {
      var iChannel := dwChannel % 0x100;
      if iChannel >= numChannels {
        return M.Error;
      }
      xdmaChannels[iChannel] := xdmaChannels[iChannel].(state := M.Halted);
      controller.DisableChannel(iChannel);
      controller.DisableChannelIt(iChannel, 0xFF);
      var _ := controller.GetChannelIsr(iChannel);
      rc := M.Ok;
    }
  }
}
