/**
 * The torrent page's counters (ui/state/torrent/action.py and view.py): a download
 * click adds one download, a view adds one view, and loading the page counts as a view.
 */
module TorrentView {
  import opened Wrappers
  import opened Text
  import opened Schema

  /** The torrents table after `views += 1` on torrent `tid`. */
  function WithView(torrents: map<nat, Torrent>, tid: nat): (r: map<nat, Torrent>)
    requires tid in torrents
    ensures r.Keys == torrents.Keys
    ensures r[tid] == torrents[tid].(views := torrents[tid].views + 1)
    ensures forall id :: id in torrents && id != tid ==> r[id] == torrents[id]
  {
    torrents[tid := torrents[tid].(views := torrents[tid].views + 1)]
  }

  /** The torrents table after `downloads += 1` on torrent `tid`. */
  function WithDownload(torrents: map<nat, Torrent>, tid: nat): (r: map<nat, Torrent>)
    requires tid in torrents
    ensures r.Keys == torrents.Keys
    ensures r[tid] == torrents[tid].(downloads := torrents[tid].downloads + 1)
    ensures forall id :: id in torrents && id != tid ==> r[id] == torrents[id]
  {
    torrents[tid := torrents[tid].(downloads := torrents[tid].downloads + 1)]
  }

  /** A view and a download, on the same torrent or on two, give the same table in either order. */
  lemma ViewDownloadCommute(torrents: map<nat, Torrent>, a: nat, b: nat)
    requires a in torrents && b in torrents
    ensures WithDownload(WithView(torrents, a), b) == WithView(WithDownload(torrents, b), a)
  {
    var l := WithDownload(WithView(torrents, a), b);
    var r := WithView(WithDownload(torrents, b), a);
    forall id | id in l
      ensures l[id] == r[id]
    {
    }
  }

  /** The redirect target `/t/{tid}`. */
  function TorrentPath(tid: nat): string {
    "/t/" + DecimalString(tid)
  }

  /** Different torrents are sent to different pages, and the id reads back from the path. */
  lemma TorrentPathReadsBack(tid: nat)
    ensures TorrentPath(tid)[..3] == "/t/"
    ensures var digits := TorrentPath(tid)[3..];
      (forall i :: 0 <= i < |digits| ==> IsDigit(digits[i])) && DecimalValue(digits) == tid
  {
    assert TorrentPath(tid)[3..] == DecimalString(tid);
    DecimalRoundTrip(tid);
  }

  /** `TorrentViewState.open`: the torrent must exist (a missing one is dereferenced as None). */
  method Open(db: Database, tid: nat)
    requires db.Valid() && tid in db.torrents
    modifies db`torrents
    ensures db.Valid()
    ensures db.torrents == WithDownload(old(db.torrents), tid)
  {
    var t := db.torrents[tid];
    db.torrents := db.torrents[tid := t.(downloads := t.downloads + 1)];
    assert db.torrents.Keys == old(db.torrents).Keys;
  }

  /** `TorrentViewState.view`: one more view, then a redirect to the torrent's page. */
  method View(db: Database, tid: nat) returns (redirect: string)
    requires db.Valid() && tid in db.torrents
    modifies db`torrents
    ensures db.Valid()
    ensures db.torrents == WithView(old(db.torrents), tid)
    ensures redirect == TorrentPath(tid)
  {
    var t := db.torrents[tid];
    db.torrents := db.torrents[tid := t.(views := t.views + 1)];
    assert db.torrents.Keys == old(db.torrents).Keys;
    redirect := "/t/" + DecimalString(tid);
  }

  /** `PageTorrentState`: the torrent page, for the torrent id of its route. */
  class PageTorrentState {
    var isLoading: bool
    var torrent: Option<Torrent>
    const tid: nat

    constructor (tid: nat)
      ensures isLoading && torrent == None && this.tid == tid
    {
      isLoading := true;
      torrent := None;
      this.tid := tid;
    }

    /** `is_found`. */
    predicate IsFound()
      reads this
    {
      torrent.Some?
    }

    /**
     * `on_load`: a found torrent gets one more view and is shown with it; a missing one
     * shows nothing and writes nothing. Loading is over either way.
     */
    method OnLoad(db: Database)
      requires db.Valid()
      modifies this, db`torrents
      ensures db.Valid()
      ensures !isLoading
      ensures tid in old(db.torrents) ==> db.torrents == WithView(old(db.torrents), tid) && torrent == Some(db.torrents[tid])
      ensures tid !in old(db.torrents) ==> db.torrents == old(db.torrents) && torrent == None
      ensures IsFound() <==> tid in db.torrents
    {
      isLoading := true;
      if tid in db.torrents {
        var t := db.torrents[tid];
        db.torrents := db.torrents[tid := t.(views := t.views + 1)];
        assert db.torrents.Keys == old(db.torrents).Keys;
        torrent := Some(db.torrents[tid]);
      } else {
        torrent := None;
      }
      isLoading := false;
    }
  }
}
