/** The course outline on the learn page (src/components/course/ChapterList.tsx): videos are
    numbered across all chapters in display order, and the first `freeVideosCount` of them
    are a free preview. */
module ChapterList {
  import opened Common

  /** A chapter as listed: its videos in display order and whether it has a quiz. */
  datatype ChapterItem = ChapterItem(videos: seq<Id>, hasQuiz: bool)

  /** The component's props. */
  datatype Props = Props(currentVideoId: Id, courseId: Id, isEnrolled: bool, freeVideosCount: int)

  /** A video link's target: `#` with its click suppressed, or the video on the learn page. */
  datatype Href = Blocked | LearnVideo(courseId: Id, videoId: Id)

  /** The link's styling and icon: playing, open, or locked. */
  datatype Look = Current | Open | Locked

  datatype VideoLink = VideoLink(videoId: Id, isFree: bool, canAccess: bool, href: Href, freeBadge: bool,
                                 isCurrent: bool, look: Look)

  /** A chapter's block: its video links and whether the quiz entry is shown. */
  datatype ChapterRow = ChapterRow(links: seq<VideoLink>, quizLink: bool)

  // ---- the rendering, specified

  /** The link for `video` when it is number `index` in display order. */
  function LinkAt(props: Props, video: Id, index: int): VideoLink {
    var isFree := index < props.freeVideosCount;
    var canAccess := props.isEnrolled || isFree;
    var isCurrent := video == props.currentVideoId;
    VideoLink(video, isFree, canAccess,
              if canAccess then LearnVideo(props.courseId, video) else Blocked,
              isFree && !props.isEnrolled, isCurrent,
              if isCurrent then Current else if canAccess then Open else Locked)
  }

  /** The links of `videos`, numbered from `start`. */
  function LinksFrom(props: Props, videos: seq<Id>, start: int): seq<VideoLink>
    decreases |videos|
  {
    if videos == [] then []
    else [LinkAt(props, videos[0], start)] + LinksFrom(props, videos[1..], start + 1)
  }

  /** The rows of `chapters`, their videos numbered from `start`. */
  function RowsFrom(props: Props, chapters: seq<ChapterItem>, start: int): seq<ChapterRow>
    decreases |chapters|
  {
    if chapters == [] then []
    else
      [ChapterRow(LinksFrom(props, chapters[0].videos, start), chapters[0].hasQuiz && props.isEnrolled)]
      + RowsFrom(props, chapters[1..], start + |chapters[0].videos|)
  }

  /** The number of videos in `chapters`. */
  function TotalVideos(chapters: seq<ChapterItem>): nat {
    if chapters == [] then 0 else |chapters[0].videos| + TotalVideos(chapters[1..])
  }

  /** The number of links marked free. */
  function FreeLinks(links: seq<VideoLink>): nat {
    if links == [] then 0 else (if links[0].isFree then 1 else 0) + FreeLinks(links[1..])
  }

  function FreeInRows(rows: seq<ChapterRow>): nat {
    if rows == [] then 0 else FreeLinks(rows[0].links) + FreeInRows(rows[1..])
  }

  function Clamp(x: int, hi: nat): nat {
    if x < 0 then 0 else if x > hi then hi else x
  }

  // ---- the component

  /** `ChapterList`: walks the chapters and their videos in order, counting videos with
      `videoIndex` across chapter boundaries. */
  method Render(props: Props, chapters: seq<ChapterItem>) returns (rows: seq<ChapterRow>)
    ensures rows == RowsFrom(props, chapters, 0)
  {
    var videoIndex := 0;
    rows := [];
    var c := 0;
    while c < |chapters|
      invariant 0 <= c <= |chapters|
      invariant rows + RowsFrom(props, chapters[c..], videoIndex) == RowsFrom(props, chapters, 0)
    {
      ghost var rest := RowsFrom(props, chapters[c + 1..], videoIndex + |chapters[c].videos|);
      RowsUnfold(props, chapters, c, videoIndex);
      var links;
      links, videoIndex := RenderVideos(props, chapters[c].videos, videoIndex);
      var row := ChapterRow(links, chapters[c].hasQuiz && props.isEnrolled);
      Associative(rows, [row], rest);
      rows := rows + [row];
      c := c + 1;
    }
    assert chapters[c..] == [];
  }

  /** One chapter's `chapter.videos?.map(...)`: each video's link, numbered on from
      `videoIndex`; returns the counter past the chapter. */
  method RenderVideos(props: Props, videos: seq<Id>, start: int) returns (links: seq<VideoLink>, videoIndex: int)
    ensures links == LinksFrom(props, videos, start)
    ensures videoIndex == start + |videos|
  {
    videoIndex := start;
    links := [];
    var j := 0;
    while j < |videos|
      invariant 0 <= j <= |videos| && videoIndex == start + j
      invariant links + LinksFrom(props, videos[j..], videoIndex) == LinksFrom(props, videos, start)
    {
      var video := videos[j];
      var isFree := videoIndex < props.freeVideosCount;
      var canAccess := props.isEnrolled || isFree;
      var isCurrent := video == props.currentVideoId;
      var href := if canAccess then LearnVideo(props.courseId, video) else Blocked;
      var look := if isCurrent then Current else if canAccess then Open else Locked;
      var link := VideoLink(video, isFree, canAccess, href, isFree && !props.isEnrolled, isCurrent, look);
      ghost var rest := LinksFrom(props, videos[j + 1..], videoIndex + 1);
      LinksUnfold(props, videos, j, videoIndex);
      assert link == LinkAt(props, video, videoIndex);
      Associative(links, [link], rest);
      videoIndex := videoIndex + 1;
      links := links + [link];
      j := j + 1;
    }
    assert videos[j..] == [];
  }

  lemma Associative<T>(a: seq<T>, b: seq<T>, c: seq<T>)
    ensures (a + b) + c == a + (b + c)
  {
  }

  /** The rows from chapter `c` on are chapter `c`'s row followed by the rest. */
  lemma RowsUnfold(props: Props, chapters: seq<ChapterItem>, c: nat, start: int)
    requires c < |chapters|
    ensures RowsFrom(props, chapters[c..], start)
            == [ChapterRow(LinksFrom(props, chapters[c].videos, start), chapters[c].hasQuiz && props.isEnrolled)]
               + RowsFrom(props, chapters[c + 1..], start + |chapters[c].videos|)
  {
    assert chapters[c..][0] == chapters[c] && chapters[c..][1..] == chapters[c + 1..];
  }

  /** The links from video `j` on are video `j`'s link followed by the rest. */
  lemma LinksUnfold(props: Props, videos: seq<Id>, j: nat, start: int)
    requires j < |videos|
    ensures LinksFrom(props, videos[j..], start) == [LinkAt(props, videos[j], start)] + LinksFrom(props, videos[j + 1..], start + 1)
  {
    assert videos[j..][0] == videos[j] && videos[j..][1..] == videos[j + 1..];
  }

  // ---- what the rendering means

  /** Chapter `c`'s row has one link per video, and the quiz entry exactly when the chapter
      has a quiz and the viewer is enrolled. */
  lemma {:induction false} RowShape(props: Props, chapters: seq<ChapterItem>, start: int, c: nat)
    requires c < |chapters|
    ensures |RowsFrom(props, chapters, start)| == |chapters|
    ensures |RowsFrom(props, chapters, start)[c].links| == |chapters[c].videos|
    ensures RowsFrom(props, chapters, start)[c].quizLink <==> chapters[c].hasQuiz && props.isEnrolled
    decreases |chapters|
  {
    LinksLength(props, chapters[0].videos, start);
    if c > 0 {
      RowShape(props, chapters[1..], start + |chapters[0].videos|, c - 1);
    } else if |chapters| > 1 {
      RowShape(props, chapters[1..], start + |chapters[0].videos|, 0);
    }
  }

  lemma {:induction false} LinksLength(props: Props, videos: seq<Id>, start: int)
    ensures |LinksFrom(props, videos, start)| == |videos|
    decreases |videos|
  {
    if videos != [] {
      LinksLength(props, videos[1..], start + 1);
    }
  }

  /** Link `j` of a run numbered from `start` is numbered `start + j`. */
  lemma {:induction false} LinkNumbered(props: Props, videos: seq<Id>, start: int, j: nat)
    requires j < |videos|
    ensures |LinksFrom(props, videos, start)| == |videos|
    ensures LinksFrom(props, videos, start)[j] == LinkAt(props, videos[j], start + j)
    decreases |videos|
  {
    LinksLength(props, videos, start);
    if j > 0 {
      LinkNumbered(props, videos[1..], start + 1, j - 1);
    }
  }

  /** Video `j` of chapter `c` is number `TotalVideos(chapters[..c]) + j` overall: it is free
      exactly when that number is below `freeVideosCount`, reachable exactly when the viewer is
      enrolled or it is free, linked to `#` exactly when it is not reachable, and badged free
      only for a free video shown to someone not enrolled. */
  lemma {:induction false} GlobalNumbering(props: Props, chapters: seq<ChapterItem>, c: nat, j: nat)
    requires c < |chapters| && j < |chapters[c].videos|
    ensures |RowsFrom(props, chapters, 0)| == |chapters|
    ensures |RowsFrom(props, chapters, 0)[c].links| == |chapters[c].videos|
    ensures var link := RowsFrom(props, chapters, 0)[c].links[j];
            var k := TotalVideos(chapters[..c]) + j;
            && link.videoId == chapters[c].videos[j]
            && (link.isFree <==> k < props.freeVideosCount)
            && (link.canAccess <==> props.isEnrolled || k < props.freeVideosCount)
            && (link.href == Blocked <==> !link.canAccess)
            && (link.canAccess ==> link.href == LearnVideo(props.courseId, chapters[c].videos[j]))
            && (link.freeBadge <==> k < props.freeVideosCount && !props.isEnrolled)
            && (link.isCurrent <==> chapters[c].videos[j] == props.currentVideoId)
  {
    RowShape(props, chapters, 0, c);
    NumberedFrom(props, chapters, 0, c, j);
  }

  lemma {:induction false} NumberedFrom(props: Props, chapters: seq<ChapterItem>, start: int, c: nat, j: nat)
    requires c < |chapters| && j < |chapters[c].videos|
    ensures |RowsFrom(props, chapters, start)| == |chapters|
    ensures |RowsFrom(props, chapters, start)[c].links| == |chapters[c].videos|
    ensures RowsFrom(props, chapters, start)[c].links[j]
            == LinkAt(props, chapters[c].videos[j], start + TotalVideos(chapters[..c]) + j)
    decreases |chapters|
  {
    RowShape(props, chapters, start, c);
    if c == 0 {
      assert chapters[..0] == [];
      LinkNumbered(props, chapters[0].videos, start, j);
    } else {
      assert chapters[..c][0] == chapters[0] && chapters[..c][1..] == chapters[1..][..c - 1];
      NumberedFrom(props, chapters[1..], start + |chapters[0].videos|, c - 1, j);
    }
  }

  /** A run of videos numbered from `start` has as many free ones as the preview leaves
      past `start`. */
  lemma {:induction false} FreeRun(props: Props, videos: seq<Id>, start: int)
    ensures FreeLinks(LinksFrom(props, videos, start)) == Clamp(props.freeVideosCount - start, |videos|)
    decreases |videos|
  {
    if videos != [] {
      FreeRun(props, videos[1..], start + 1);
    }
  }

  lemma {:induction false} FreeRows(props: Props, chapters: seq<ChapterItem>, start: int)
    ensures FreeInRows(RowsFrom(props, chapters, start)) == Clamp(props.freeVideosCount - start, TotalVideos(chapters))
    decreases |chapters|
  {
    if chapters != [] {
      var rows := RowsFrom(props, chapters, start);
      FreeRun(props, chapters[0].videos, start);
      FreeRows(props, chapters[1..], start + |chapters[0].videos|);
      assert rows[1..] == RowsFrom(props, chapters[1..], start + |chapters[0].videos|);
    }
  }

  /** Exactly `min(max(freeVideosCount, 0), total)` videos are free, however the videos are
      spread over the chapters. */
  lemma FreeCount(props: Props, chapters: seq<ChapterItem>)
    ensures FreeInRows(RowsFrom(props, chapters, 0))
            == if props.freeVideosCount < 0 then 0
               else if props.freeVideosCount > TotalVideos(chapters) then TotalVideos(chapters)
               else props.freeVideosCount
  {
    FreeRows(props, chapters, 0);
  }
}
